# EQueue resource timing structures, modelled in Dafny

This project models the hardware timing structures of the EQueue cost model,
as `include/EQueue/EQueueStructs.h` defines them:

- **Device**, a generic resource. Its busy time is a vector of
  `(start, end)` `uint64_t` events, and three in-place updates change it:
  - `deleteOutdatedEvents` purges the leading events that start before a given time.
  - The single-device `scheduleEvent` inserts one reservation, purging first when asked.
  - The joint `scheduleEvent` reserves the same interval on the device and on every device of a list.
- **DMA**, a device with a fixed transfer rate and warm-up latency, and
  the formula that turns a data volume into cycles.
- **Memory**, a device whose line width, total volume and per-access
  cycle cost are derived once at construction, with its read/write cycle
  query.
- The **SRAM** and **DRAM** presets, the unit macros (`Bit`, `Byte`, `KB`,
  `MB`, `GB`) and the `ENOUGH` sentinel.

Machine arithmetic is written out:
- `uint64_t` `+` and `-` wrap modulo 2^64 (`MachineInts.Add64`, `MachineInts.Sub64`).
- `int` is a 32-bit subset type.
- `int / int` truncates toward zero (`MachineInts.TruncDiv`).
- Signed overflow is undefined in C++, so it is excluded by preconditions.

The one place the header overflows, `512 MB`, is modelled as the usual
two's-complement wrap, so that its consequence can be stated.

Module layout:
- `machine_ints.dfy`: `MachineInts`.
- `units.dfy`: `Units`.
- `device.dfy`: `Devices`. It holds the `Device` class and the pure functions that specify its methods.
- `device_properties.dfy`: `DeviceProperties`.
- `dma.dfy`: `DmaTiming`.
- `memory.dfy`: `Memories`.
- `memory_properties.dfy`: `MemoryProperties`.

`DMA` and `Memory` inherit from `Device` in C++. Here each holds its
`Device` as a `const device` field, so its timeline is reached through
`device.events`.

## Model

| member | source | states |
|---|---|---|
| Units.KbAsInt | include/EQueue/EQueueStructs.h:37-39 | `n KB` in `int` arithmetic is `n * 1024 * 1024` whenever that product fits in 32 bits |
| Units.MbAsInt | include/EQueue/EQueueStructs.h:37-40 | `n MB` in `int` arithmetic is `n * 1024^3` whenever that product fits in 32 bits |
| Units.TenKbFits | include/EQueue/EQueueStructs.h:191 | SRAM's `10 KB` is 10485760 and does not overflow |
| Units.FiveHundredTwelveMbWrapsToZero | include/EQueue/EQueueStructs.h:195 | DRAM's `512 MB` is 2^39, does not fit in `int` and wraps to 0 |
| MachineInts.TruncDivTowardZero | include/EQueue/EQueueStructs.h:183-185 | `int / int` rounds toward zero for every sign: `q * b` is no larger than `a` in magnitude, within one `b` of it, and has the sign of `a` unless it is 0 |
| Devices.OutdatedCount | include/EQueue/EQueueStructs.h:56-60 | the scan stops at the first event whose start is not before `now`: every earlier event starts before `now`, and the stopping event (if any) does not |
| Devices.Purged | include/EQueue/EQueueStructs.h:55-62 | the purged timeline is a suffix of the old one, every dropped event starts before `now`, and the first kept event starts at or after `now` |
| Devices.OutdatedCountUnique | include/EQueue/EQueueStructs.h:57-61 | any prefix length that meets the stopping condition is the one the scan finds |
| Devices.Pending | include/EQueue/EQueueStructs.h:63-65 | the timeline the placement works on is a suffix of the old one: the old one unchanged without `cleanEvents`, and with it one whose first event starts at or after the requested start |
| DeviceProperties.GapTestMeaning | include/EQueue/EQueueStructs.h:75-76 | what the gap test (`Devices.IsGap`) accepts: with the next event starting no earlier, more than `exec` free ticks after an event that ends before the requested start; with the next event starting earlier, an event that ends before the requested start and overlaps the next by less than 2^64 - `exec`, because the distance wraps |
| Devices.FirstGap | include/EQueue/EQueueStructs.h:74-82 | the scan's result satisfies the gap test (ends before the requested start, wrapped distance to the next start exceeds the duration), and no earlier index does |
| Devices.Place | include/EQueue/EQueueStructs.h:64-87 | the insertion index is either the front of the vector or its end |
| Devices.Scheduled | include/EQueue/EQueueStructs.h:88 | the new timeline is the old one plus exactly the reservation (as multisets), with the events before and after the insertion point unchanged |
| Devices.NextFree | include/EQueue/EQueueStructs.h:96-101 | `last.end + 1` is the tick after the last event's end, or 0 when that end is the largest `uint64_t` |
| Devices.JointCandidates | include/EQueue/EQueueStructs.h:94-102 | the candidates start with the requested start and the device's own next free tick, contain the next free tick of every non-empty listed timeline, and contain nothing else |
| Devices.MaxElement | include/EQueue/EQueueStructs.h:103 | the result is an element of the sequence and bounds every element from above |
| Devices.JointStart | include/EQueue/EQueueStructs.h:94-103 | the joint start is at or after the requested start, the device's own next free tick and the next free tick of every non-empty listed timeline, and is one of these |
| Devices.Device.constructor | include/EQueue/EQueueStructs.h:51-53 | a new device has its id and the single sentinel event `(0, 0)` |
| Devices.Device.DeleteOutdatedEvents | include/EQueue/EQueueStructs.h:55-62 | the loop with early exit leaves exactly `Purged(old events, now)` |
| Devices.Device.ScheduleEvent | include/EQueue/EQueueStructs.h:63-90 | after the optional purge, the vector becomes `Scheduled(...)` and the returned finish is the chosen start plus the duration (mod 2^64) |
| Devices.Device.FindSlot | include/EQueue/EQueueStructs.h:64-87 | the start time and insertion position the scan arrives at are exactly `Place(...)`: the requested start at the front below two events, otherwise the first-fit gap or the last event's end, at the end |
| Devices.PlaceAtGap | include/EQueue/EQueueStructs.h:72-87 | with two or more events, when index `i` is the first to pass the gap test, the reservation starts one tick after event `i` ends and goes at the end |
| Devices.PlaceAfterLast | include/EQueue/EQueueStructs.h:72-87 | with two or more events and no index passing the gap test, the reservation starts one tick after the last event ends and goes at the end |
| Devices.Device.StartCandidates | include/EQueue/EQueueStructs.h:94-102 | the collection loop produces exactly `JointCandidates` of the current timelines |
| Devices.Device.ScheduleJointEvent | include/EQueue/EQueueStructs.h:91-110 | returns `JointStart + duration`; every device of `[this] + dlist` gets the reservation appended once per occurrence in that list, and no other change |
| Devices.AppendToEach | include/EQueue/EQueueStructs.h:104-108 | each device of the list gets the event appended once per occurrence in the list |
| Devices.Timelines | include/EQueue/EQueueStructs.h:97-99 | the timelines read from the list, position by position |
| DeviceProperties.PurgeIdempotent | include/EQueue/EQueueStructs.h:55-62 | purging twice at the same time is purging once |
| DeviceProperties.PurgeCompose | include/EQueue/EQueueStructs.h:55-62 | purging at `t1` then at a later `t2` is purging at `t2` |
| DeviceProperties.PurgedStops | include/EQueue/EQueueStructs.h:57-61 | the purge keeps the whole timeline when it is empty or its first event starts at or after the given time |
| DeviceProperties.PurgedSteps | include/EQueue/EQueueStructs.h:57-61 | a first event that starts before the given time is dropped and the purge continues on the rest |
| DeviceProperties.EmptyTimelineGetsLoneEvent | include/EQueue/EQueueStructs.h:63-88 | after a purge that empties the vector, the reservation is placed at the requested start and is the only event |
| DeviceProperties.LoneEventGoesInFront | include/EQueue/EQueueStructs.h:66-88 | with one event starting before `start + exec`, the requested start is kept and the reservation goes in front of that event |
| DeviceProperties.FreshDeviceExample | include/EQueue/EQueueStructs.h:51-90 | a new device asked for 5 ticks at 0 holds `[(0,5), (0,0)]` and returns 5 |
| DeviceProperties.FreshDeviceZeroRequestUndefined | include/EQueue/EQueueStructs.h:67-70 | a new device asked for 0 ticks at 0 takes the branch that reads past the end of the vector |
| DeviceProperties.LoneEventOverlapExample | include/EQueue/EQueueStructs.h:66-71 | the lone-event branch can produce overlapping reservations: `[(10,20)]` plus 15 ticks at 0 gives `[(0,15), (10,20)]` |
| DeviceProperties.TwoOrMoreAppends | include/EQueue/EQueueStructs.h:72-88 | with two or more events the reservation is appended at the end, gap or no gap |
| DeviceProperties.GapIsFirstFit | include/EQueue/EQueueStructs.h:74-82 | at the first qualifying gap the reservation starts right after event `i`, no later than requested, and (when the next event starts after event `i` ends) ends no later than the next event's start |
| DeviceProperties.GapNotUsedForEarlyRequest | include/EQueue/EQueueStructs.h:72-88 | `[(0,0),(10,20),(50,60)]` plus 15 ticks at 0 appends `(61,76)` |
| DeviceProperties.GapUsedForLateRequest | include/EQueue/EQueueStructs.h:72-88 | the same timeline, sorted by start, plus 15 ticks at 30 appends `(21,36)` behind `(50,60)`, so the result is no longer sorted by start |
| DeviceProperties.UsedGapBreaksOrder | include/EQueue/EQueueStructs.h:74-88 | whenever the first-fit gap starts before the last event does, the appended reservation leaves the timeline unsorted by start |
| DeviceProperties.LoneEventBreaksOrder | include/EQueue/EQueueStructs.h:66-71 | with one event that starts before the requested start, the reservation goes in front of it and the timeline is no longer sorted by start |
| DeviceProperties.WrappedGapExample | include/EQueue/EQueueStructs.h:75-85 | on `[(0,5),(0,0)]` the distance `0 - 5` wraps to 2^64 - 5, so the gap test passes and the reservation starts after the first event, at `(6,9)`, instead of after the last event's end, at 1, inside `(0,5)` |
| DeviceProperties.WrappedDistanceNeedsEarlyEnd | include/EQueue/EQueueStructs.h:75-85 | a wrapped distance alone does not pass the gap test: on `[(0,5),(0,0)]` asked for 1 tick at 3, event 0 does not end before 3, so the reservation is `(1,2)`, after the last event |
| DeviceProperties.JointFinishNotEarlier | include/EQueue/EQueueStructs.h:103-109 | without wrap-around, a joint reservation ends no earlier than the requested start plus duration |
| DeviceProperties.JointExample | include/EQueue/EQueueStructs.h:94-103 | devices free from 12 and 7, asked jointly from 0, start at 12 |
| DmaTiming.CeilDiv | include/EQueue/EQueueStructs.h:124 | the result is the ceiling of the quotient |
| DmaTiming.Dma.constructor | include/EQueue/EQueueStructs.h:122 | a new DMA engine wraps a new device with its id and the sentinel event; rate `10 KB`, warm-up 2 |
| DmaTiming.Dma.TransferCycles | include/EQueue/EQueueStructs.h:123-125 | cycles minus warm-up is the least number of whole cycles at the transfer rate that covers the volume |
| DmaTiming.DefaultTransferCycles | include/EQueue/EQueueStructs.h:122-125 | a zero volume takes 2 cycles, and any volume up to one cycle's worth takes 3 |
| DmaTiming.WholeCyclesTransfer | include/EQueue/EQueueStructs.h:122-125 | `k` cycles' worth of volume takes `2 + k` cycles |
| DmaTiming.TwentyFiveCyclesExample | include/EQueue/EQueueStructs.h:122-125 | 25 cycles' worth of volume takes warm-up + 25 cycles |
| DmaTiming.TransferCyclesMonotone | include/EQueue/EQueueStructs.h:123-125 | a larger volume never takes fewer cycles |
| Memories.CeilLog2 | include/EQueue/EQueueStructs.h:171 | `ceil(log2(n))` is an exponent `k` with 2^k >= n and 2^(k-1) < n |
| Memories.CeilLog2OfPow2 | include/EQueue/EQueueStructs.h:171 | at a power of two, `ceil(log2(n))` is exactly the exponent |
| Memories.CeilLog2IsLeast | include/EQueue/EQueueStructs.h:171 | no exponent below `ceil(log2(n))` reaches `n` |
| Memories.AddressSize | include/EQueue/EQueueStructs.h:171 | zero lines get 1 address bit; otherwise the address width is the least number of bits whose power of two reaches the line count |
| Memories.DataSize | include/EQueue/EQueueStructs.h:153-169 | 32 bits exactly for `f32` and `f16`, 8 exactly for `f8`, 4 exactly for `f4`, and 1 exactly for every other tag |
| Memories.LineWidth | include/EQueue/EQueueStructs.h:171-174 | a line holds the data bits, a valid bit and enough address bits to number every line (2 address-and-valid bits when there are no lines) |
| Memories.Configure | include/EQueue/EQueueStructs.h:148-179 | the derived fields: data size from the type tag, line width 1 + address + data bits, total volume = width * lines, cycles the larger of the floor and the scaled truncated volume ratio |
| Memories.ReadOrWriteCycles | include/EQueue/EQueueStructs.h:181-187 | base cycles when the port count for the operation is `ENOUGH`; otherwise `lines / read_ports * cycles` for reads and writes alike |
| Memories.SramTiming | include/EQueue/EQueueStructs.h:190-193 | an SRAM bank has unlimited read and write ports and at least 2 cycles |
| Memories.Memory.constructor | include/EQueue/EQueueStructs.h:148-179 | a new bank wraps a new device with the sentinel event and the fields of `Configure` |
| Memories.Memory.Sram | include/EQueue/EQueueStructs.h:190-193 | an SRAM bank is a bank built with `ENOUGH`, `ENOUGH`, `10 KB`, 5 and 2 |
| MemoryProperties.AddressSizeMonotone | include/EQueue/EQueueStructs.h:171 | from one line up, more lines never need fewer address bits |
| MemoryProperties.AddressSizeExamples | include/EQueue/EQueueStructs.h:171 | 1024 lines need 10 bits, one line needs 0, zero lines get 1 |
| MemoryProperties.SramF32Example | include/EQueue/EQueueStructs.h:148-193 | an SRAM of 1024 `f32` lines has 43-bit lines, 44032 bits and 2 cycles |
| MemoryProperties.SramUnknownTagExample | include/EQueue/EQueueStructs.h:153-193 | the same SRAM with an unknown tag has 1 data bit, 12-bit lines, 12288 bits and 2 cycles |
| MemoryProperties.CyclesMonotoneInLines | include/EQueue/EQueueStructs.h:171-178 | with a positive default volume and non-negative cycle rate, more lines (from zero up) never give fewer cycles |
| MemoryProperties.VolumeMonotone | include/EQueue/EQueueStructs.h:171-175 | from zero lines up, the total volume never shrinks as the line count grows |
| MemoryProperties.ScaledMonotone | include/EQueue/EQueueStructs.h:178 | the scaled truncated volume ratio is monotone in the volume |
| MemoryProperties.UnlimitedPortsIgnoreLines | include/EQueue/EQueueStructs.h:181-185 | with `ENOUGH` ports for the operation, every line count costs the base cycles |
| MemoryProperties.SramAccessIsBaseCycles | include/EQueue/EQueueStructs.h:181-193 | every SRAM read or write costs the bank's base cycles |
| MemoryProperties.NegativeLinesRoundTowardZero | include/EQueue/EQueueStructs.h:183-185 | a negative line count on bounded ports gives `-(abs(lines) / read_ports)` port groups, rounded toward zero |
| MemoryProperties.WriteDividesByReadPorts | include/EQueue/EQueueStructs.h:183-185 | with bounded ports, a write costs what a read costs, whatever the write-port count |
| MemoryProperties.BoundedWriteWithUnlimitedReadIsNegative | include/EQueue/EQueueStructs.h:185 | with `ENOUGH` read ports and bounded write ports, a write costs `-lines * cycles`, which is negative |
| MemoryProperties.DramPresetUndefined | include/EQueue/EQueueStructs.h:194-197 | DRAM's default volume is 0, so no DRAM bank's construction is defined |

## Left out

- `energy` (line 49) and the DMA `mode` flag with the `BURST_MODE` and `STEAL_CYECLE_MODE` macros (lines 32-33, 117, 122): they are set and never read by the modelled operations.
- The virtual destructor (line 54): object lifetime is not modelled.
- `hash` (lines 128-130) is not modelled. The type tag is matched by exact string equality, so a tag whose 32-bit hash collides with that of `f32`, `f16`, `f8` or `f4` is not given that width here. A tag with an embedded NUL is treated as a whole string, not cut at the NUL.
- Floating point: `transfer_rate` is a `double`, and `ceil`, `log2` and `round` are C library calls. The model uses exact integer arithmetic instead. It agrees with the floating-point result for every `int` input, for a different reason at each call; these arguments are not proved in the model:
  - Line 124 divides an `int` by the `double` 10485760 = 5 * 2^21, so `ceil` sees a rounded floating-point quotient. A multiple of the rate gives an exact integer quotient. Any other volume below 2^31 in magnitude gives a quotient at least 1/10485760 (about 9.5e-8) from the nearest integer, while the quotient is below 205 and its rounding error below 205 * 2^-53 (about 2.3e-14). So `ceil` returns the exact ceiling.
  - Line 171 takes `log2` of a positive `int` below 2^31. At a power of two 2^k, `log2` returns exactly k, as C libraries do there (Memories.CeilLog2OfPow2 is the integer side of this). For 2^(k-1) < n < 2^k, the result lies strictly between k - 1 and k, at least about 1/(2^k ln 2) > 6.7e-10 below k, far more than the rounding error near 31. So `ceil` returns the least k with 2^k >= n.
  - Lines 178, 183 and 185 apply `round` and `ceil` to `int / int` quotients, which are already truncated integers, so the calls leave them unchanged.
- Memories.ReadOrWriteCycles: the final `return -1` (line 186) is not modelled, because `MemOp` has only `Read` and `Write`, so it cannot be reached.
- Devices.Device.ScheduleEvent requires that, with a single event, that event starts before `start + exec`. Otherwise line 69 dereferences the element past the end of the vector, which is undefined behaviour.
- Devices.Device.ScheduleEvent takes the insertion iterator to be the front of the vector after the purge. The C++ takes `begin()` before `deleteOutdatedEvents` (line 64), and erasing invalidates that iterator. The model follows what the iterator still points at: the start of the same buffer.
- Devices.Device.ScheduleJointEvent and Devices.Device.StartCandidates require a non-empty own timeline, because line 96 reads the last event.
- Null device pointers in `dlist` are not modelled. Nor is a `dlist` element type other than a pointer to `Device`: the template parameter becomes `seq<Device>`.
- The memory constructor requires:
  - a non-zero default volume;
  - a non-negative line count, because `log2` of a negative number is NaN and converting it to `int` is undefined;
  - no signed overflow in `total_size * dlines` or in `cyc_per_data * ...`.
- `getReadOrWriteCycles` requires, whenever it divides by the read-port count, that the count is not zero and that two hazards are absent. The first is signed overflow in the `int` quotient `dlines / read_ports` (`INT_MIN / -1`). The second is an out-of-range conversion: `ceil` returns a `double`, so the product with `cycles` is computed in `double`, and converting a result outside the `int` range back to `int` on return is undefined.
- No DRAM constructor is modelled. `512 MB` wraps to 0 in `int`, so `DRAM(...)` always divides by zero (line 178) and its precondition could never hold. MemoryProperties.DramPresetUndefined states this.
- `GB` is defined as a constant but used nowhere in the header.
- Concurrency: the structures are used single-threaded.
- Mutable configuration fields: in C++, `transfer_rate`, `warmup_cycles` and the `Memory` fields are public and could be reassigned after construction. Nothing in the header does so, and the model makes them `const`. Writes to them from outside the header are not modelled.

## Notes on the source

Where the code and the usual description of these structures disagree, the model follows the code:

- **Purge compares start times.** `deleteOutdatedEvents` drops the leading events whose *start* is before the given time (line 58), not those whose end is. It stops at the first event that starts at or after that time, even if later events start earlier.
- **Two or more events: always appended.** Line 86 is not governed by the `if (!slotFound)` on line 83, so the reservation is appended at the end of the vector even when a gap was found. A found gap only changes the start time (DeviceProperties.TwoOrMoreAppends). In the two-or-more branch, this is what makes the vector stop being sorted by start: a reservation placed in a gap ends up behind later events (DeviceProperties.UsedGapBreaksOrder). For example, `[(0,0),(10,20),(50,60)]` plus 15 ticks at 30 gives `[..., (50,60), (21,36)]` (DeviceProperties.GapUsedForLateRequest).
- **The gap test needs an event ending before the requested start.** For `[(0,0),(10,20),(50,60)]` and 15 ticks at time 0, no event ends before 0. So the gap after `(10,20)` is not used and `(61,76)` is appended (DeviceProperties.GapNotUsedForEarlyRequest). The gap is used only for a later request, such as one at time 30, which gets `(21,36)` (DeviceProperties.GapUsedForLateRequest).
- **The gap distance wraps.** `(iter+1)->first - iter->second` is `uint64_t`. When the next event starts before the current one ends, the distance is close to 2^64 and the distance comparison passes, so the test passes whenever event i also ends before the requested start (DeviceProperties.GapTestMeaning). When it passes, the reservation starts after the current event rather than after the last one. On `[(0,5),(0,0)]` with 3 ticks at 10, it gets `(6,9)`; a distance that did not wrap would fail the test and give `(1,4)`, inside `(0,5)` (DeviceProperties.WrappedGapExample). When event i does not end before the requested start, the wrapped distance changes nothing: on `[(0,5),(0,0)]` with 1 tick at 3 the reservation is `(1,2)`, after the last event but inside `(0,5)` (DeviceProperties.WrappedDistanceNeedsEarlyEnd).
- **The single-event branch can overlap.** With one event that starts before `start + exec`, the reservation is placed at the requested start in front of it, whether or not the two intervals overlap (DeviceProperties.LoneEventOverlapExample). It is also placed in front when the existing event starts earlier, so this branch breaks the order by start too: `[(5,10)]` plus 10 ticks at 8 gives `[(8,18),(5,10)]` (DeviceProperties.LoneEventBreaksOrder). Otherwise the branch reads past the end of the vector, so the intended "place after the existing event" is not what the code does.
- **Joint reservations do no checking.**
  - An empty list is accepted.
  - A list that repeats a device, or names the device itself, gives that device one more copy of the reservation per repetition (Devices.Device.ScheduleJointEvent).
  - Intervals are appended, never checked for overlap or order.
- **`f16` is 32 bits.** The `f16` case sets `data_size = 32` (line 158), the same as `f32`.
- **Writes divide by the read-port count.** The write branch (line 185) tests `write_ports` but divides by `read_ports`. So bounded writes cost what reads cost, and with `ENOUGH` read ports a write costs `-dlines * cycles` (MemoryProperties.WriteDividesByReadPorts, MemoryProperties.BoundedWriteWithUnlimitedReadIsNegative).
- **SRAM's default volume is `10 KB`.** That is 10 * 1024 * 1024 = 10485760 in the header's units, where a byte is 1024 "bits".
- **DRAM's `512 MB` overflows `int`.** It is 2^39, which wraps to 0, so constructing a DRAM divides by zero.
