# Shared-memory ping-pong benchmark, modelled in Dafny

This project models the core of `unix-ipc-benchmarks`: the shared-memory
transport and the common pieces around it. A *server* and a *client* each map
two rings: server-to-client (`s2c`) and client-to-server (`c2s`). Each ring
has `SHM_NUM_MSG = 4096` slots of `message_size` bytes. Both processes
precompute the same numbered messages and meet through a user-signal
rendezvous. Then they play `iterations` rounds: the server writes message `i`
and spins until its echo comes back; the client spins until message `i`
arrives and echoes it. A `Benchmarks` accumulator on the server records one
duration per round. Its destructor prints integer figures.

Modules, one per source component:

| module | file | models |
|---|---|---|
| `Bits` | `bits.dfy` | unsigned `&`; masking with `n - 1` is `% n` exactly for powers of two |
| `Shm` | `shm.dfy` | `ShmManager`: segment, process-local cursors, `init_shm`, `get_shm_size`, `write_shm`, `read_shm_until`, `read_all_shm`, `get_write_offset` |
| `Messages` | `messages.dfy` | `std::to_string`, the dot-padded payloads, the precompute loop |
| `Signals` | `signals.dfy` | the two flags, the three handlers, `SignalManager` (constructor, `notify`, one pass of `wait_until_notify`), a process's handler table and delivery |
| `Bench` | `bench.dfy` | `Benchmarks` (constructor, `start_iteration`, `end_iteration`, destructor) and the `report` arithmetic |
| `Args` | `args.dfy` | `parse_args` and `parse_launcher_args` over the option list `getopt` yields |
| `MessageBuffer` | `msgbuf.dfy` | `MsgbufRAII`: constructor, `get_len`, `set_data` with `strncpy` semantics |
| `PingPong` | `pingpong.dfy` | the server's and client's `main`, the launcher's handlers and the whole run, as one interleaving |

`ShmManager`, `Benchmarks`, `SignalManager`, a process's signal state and
`MsgbufRAII` are classes whose methods update their fields. The shared
segment is an `array<char>` that `WriteShm` overwrites in place. The
precompute loop, the option loops and the round loop are `while` loops with
invariants.

The ring's contents after `n` messages are given by `PingPong.Layout(n)`:
the zero-filled segment with messages `0 .. n-1` copied into their slots in
order. `LayoutSlots` shows that each slot holds zeros or the latest message
written to it. From this, `StaleSlotNeverMatches` and `FreshSlotMatches`
show that polling by content is sound: a reader never mistakes the previous
lap's message for the one it waits for. `Run` then proves the end-to-end
outcome of the program as written:
- when both setups succeed, the client returns 0, nobody is killed by a user
  signal, and the server's `Benchmarks` destructor runs `report`. The server
  returns 0 with the exact figures when the rounds took time and neither rate
  wraps. It crashes on a division by zero when the total duration is 0;
- when the client's setup throws, it returns 1 and the server spins forever
  in its wait;
- when the server's setup throws, unwinding destroys its `Benchmarks`, whose
  report divides by zero iterations and crashes it. A client that set up
  spins forever in its first poll.

Nothing in the code checks that `message_size` is a power of two, although
`write_shm` and `read_shm_until` (src/shm/shm.cc:126-128 and :138-140) replace
the modulo step with a mask that equals it only for a power-of-two segment
size. `SHM_NUM_MSG` is a power of two, so the segment size is one exactly
when `message_size` is. The model follows the code. With a
power-of-two `message_size`, the masked cursor step is reduction modulo the
segment size (`Shm.MaskedStep`). With other sizes it is not
(`Bits.MaskDivergesWithoutPow2`), and the driver's contracts assume a power
of two.

## Model

| member | source | states |
|---|---|---|
| `Bits.BitAnd` | src/shm/shm.cc:128 | `a & b` on unsigned values is at most either operand |
| `Bits.MaskIsMod` | src/shm/shm.cc:127-128 | for a power of two `n`, `x & (n - 1) == x % n`: the "more performant equivalent" of the comment |
| `Bits.MaskDivergesWithoutPow2` | src/shm/shm.cc:127-128 | for the non-power-of-two segment size 12288, `4098 & 12287 == 2` while `4098 % 12288 == 4098`: the equivalence needs a power of two |
| `Shm.NumMsgIsPow2` | src/shm/shm.hh:12-13 | `SHM_NUM_MSG = 1 << 12 = 4096` is a power of two |
| `Shm.SlotInBounds` | src/shm/shm.hh:32-35 | every slot `(n mod 4096) * message_size` lies wholly inside the `message_size * 4096`-byte segment |
| `Shm.SlotOffsetIsBytesMod` | src/shm/shm.hh:41-42 | the slot offset of message `n` is the bytes written, `n * message_size`, modulo the segment size |
| `Shm.PositionStep` | src/shm/shm.cc:126-128 | the ring position of message `n + 1` follows that of `n` and wraps to 0 after the last slot |
| `Shm.SlotOffsetWraps` | src/shm/shm.cc:126-128 | after `SHM_NUM_MSG` further messages the cursor is back where it was; after exactly 4096 it is 0 |
| `Shm.SlotStepMod` | src/shm/shm.cc:126-128 | advancing by one message and reducing modulo the segment size moves from the slot of message `n` to that of `n + 1` |
| `Shm.MaskedStep` | src/shm/shm.cc:138-140 | with a power-of-two `message_size`, the masked advance moves the cursor from the slot of message `n` to the slot of `n + 1` |
| `Shm.Splice` | src/shm/shm.cc:125 | `std::copy` into the segment: same length, the message at the offset, every byte outside it unchanged |
| `Shm.InitOutcome` | src/shm/shm.cc:49-93 | `init_shm` succeeds iff `shm_open`, `ftruncate` (or its `EINVAL` failure), `fstat` and `mmap` all succeed; it throws the mmap error iff only `mmap` fails |
| `Shm.ShmManager.constructor` | src/shm/shm.cc:13-17 | `shm_ptr` is null, both cursors 0, `shm_size = message_size * SHM_NUM_MSG` |
| `Shm.ShmManager.InitShm` | src/shm/shm.cc:49-93 | the error is `InitOutcome` of the calls; cursors reset only after a successful map; a failed `mmap` leaves `MAP_FAILED`, not null; earlier failures change nothing |
| `Shm.ShmManager.GetShmSize` | src/shm/shm.cc:95-120 | succeeds iff `shm_open` and `fstat` succeed, with their errors in that order; on success it returns `shm_size` |
| `Shm.ShmManager.WriteShm` | src/shm/shm.cc:122-130 | the segment becomes the old segment with the message spliced in at the write cursor; the cursor becomes `(offset + message_size) & (shm_size - 1)`; the read cursor is untouched; the cursor invariant is kept |
| `Shm.ShmManager.ReadShmUntil` | src/shm/shm.cc:132-144 | returns true iff the `message_size` bytes at the read cursor equal the target; only then does it advance the cursor by the masked step; on a mismatch nothing changes |
| `Shm.ShmManager.ReadAllShm` | src/shm/shm.cc:146-149 | returns exactly the first `write_offset` bytes of the segment; for a power-of-two `message_size`, their length is the bytes written modulo the segment size |
| `Shm.ShmManager.GetWriteOffset` | src/shm/shm.cc:151-154 | returns `write_offset`, which is below `shm_size`; for a power-of-two `message_size`, it equals the bytes written modulo `shm_size` |
| `Shm.ShmManager.RoomAtCursors` | src/shm/shm.hh:32-35 | with a power-of-two `message_size`, both cursors always leave room for a whole message, so the caller's obligation of `write_shm` always holds |
| `Messages.Digits` | src/shm/server.cc:31 | `std::to_string(i)`: at least one character, all decimal digits, no leading zero |
| `Messages.ValueOfDigits` | src/shm/server.cc:31 | reading the digits of `i` back gives `i` |
| `Messages.DigitsInjective` | src/shm/server.cc:31 | distinct numbers have distinct decimal forms |
| `Messages.DigitsMonotone` | src/shm/server.cc:29-34 | a larger number never has fewer digits, so if the last number fits, all earlier ones fit |
| `Messages.Dots` | src/shm/server.cc:33 | `std::string(message_size, '.')`: `message_size` dots |
| `Messages.MessageRoundTrip` | src/shm/server.cc:31-34 | each message is `message_size` long, starts with a digit and carries its own number |
| `Messages.MessagesDistinct` | src/shm/server.cc:31-34 | distinct iterations whose digits fit give distinct messages |
| `Messages.PayloadAsWritten` | src/shm/server.cc:31-34 | as written, the string keeps `message_size` bytes: the intended message when the digits fit, and otherwise a proper prefix of the digits, losing the rest |
| `Messages.OverrunAsWritten` | src/shm/server.cc:34 | `std::copy` writes past the end of the string iff `to_string(i)` is longer than `message_size` |
| `Messages.OverlongPayloadsCollide` | src/shm/server.cc:31-34 | with `message_size = 1`, copying `"10"` overruns by one byte, and the bytes kept equal those of message 1 |
| `Messages.MakeMessages` | src/shm/server.cc:26-36 | exactly `iterations` messages; `messages[i]` is the digits of `i` padded with dots to `message_size`; all distinct |
| `Signals.SignalsDistinct` | src/common/signals.hh:18-19 | `SERVER_SIGNAL` (SIGUSR1) differs from `CLIENT_SIGNAL` (SIGUSR2) |
| `Signals.HandlerFrame` | src/common/signals.cc:13-25 | each handler writes only its own flag, and only the delivered number; `ignore_signal` writes nothing |
| `Signals.InstalledTables` | src/common/signals.cc:29-43 | the launcher ignores both signals; the server handles its own and ignores the client's; the client is the mirror image |
| `Signals.NotifyWakesPeer` | src/common/signals.cc:48-53 | the signal a server or client broadcasts, run through its peer's table, makes the peer's wait succeed |
| `Signals.OwnNotifyIgnored` | src/common/signals.cc:35-42 | a server's or client's own table ignores the signal it broadcasts, so its own `notify` never ends its own wait |
| `Signals.LauncherNeverWakes` | src/common/signals.cc:58-74 | a launcher's wait never exits |
| `Signals.ReadinessSticky` | src/common/signals.cc:70-73 | once the flag is set, further user signals do not clear it: a signal that arrives before the wait starts is not lost |
| `Signals.ConsumeClears` | src/common/signals.cc:58-69 | leaving the wait resets the observed flag to 0, keeps the other, and the wait is not ready again |
| `Signals.Process.constructor` | src/common/signals.cc:7-8 | both flags start at 0 and no handler is installed |
| `Signals.Process.Deliver` | src/common/signals.cc:10-25 | an arriving signal runs the installed handler, or terminates the process when none is installed (the default action) |
| `Signals.SignalManager.constructor` | src/common/signals.cc:27-44 | installs exactly the table of its target, leaves every other signal's handler and the flags alone |
| `Signals.SignalManager.Notify` | src/common/signals.cc:48-53 | sends `CLIENT_SIGNAL` for a server and `SERVER_SIGNAL` otherwise, the launcher included |
| `Signals.SignalManager.PollWait` | src/common/signals.cc:56-75 | one pass of the loop leaves iff its own flag holds its own signal, resetting that flag to 0; otherwise nothing changes |
| `Bench.Wrap` | src/common/bench.cc:57-58 | `unsigned long long` values are below 2^64 and unchanged when they fit |
| `Bench.MulU64` | src/common/bench.cc:57-58 | a 64-bit product is below 2^64 and is the exact product whenever that fits |
| `Bench.Quot` | src/common/bench.cc:54-58 | unsigned division is the floor quotient: `q * d <= x < (q + 1) * d` |
| `Bench.ReportAsWritten` | src/common/bench.cc:48-59 | `report` as written faults (division by zero) iff `niterations` or `total_duration_ns` is 0 |
| `Bench.Report` | src/common/bench.cc:48-59 | every figure is the floor quotient of the intended exact product; each rate is present iff its divisor is nonzero |
| `Bench.ReportAgreesWhenDefined` | src/common/bench.cc:54-58 | with nonzero divisors and products below 2^64, `report` as written prints exactly the guarded figures |
| `Bench.ReportWithoutIterationsFaults` | src/common/bench.cc:55 | with no completed iteration, `report` as written divides by zero; the guarded one prints no per-iteration figure |
| `Bench.BytesPerSecWraps` | src/common/bench.cc:58 | 10^7 messages of 4096 bytes in 10 s print 406651185 bytes/s as written instead of 4096000000 |
| `Bench.Benchmarks.constructor` | src/common/bench.cc:16 | `start_ns`, `total_duration_ns`, `total_messages` and `niterations` are 0 and `durations` is empty |
| `Bench.Benchmarks.StartIteration` | src/common/bench.cc:20-24 | sets only `start_ns`, returns 0 |
| `Bench.Benchmarks.EndIteration` | src/common/bench.cc:28-45 | a clock that went backwards returns -1 and changes nothing; otherwise it appends `end - start`, adds the messages, counts the iteration, returns 0, and keeps `niterations == |durations|` and `total_duration_ns == sum(durations)` |
| `Bench.Benchmarks.Destroy` | src/common/bench.hh:44-47 | the destructor always runs `report` as written on the current totals: with no recorded duration it divides by zero; otherwise it prints one iteration per duration, and exactly the `Report` figures when the duration is nonzero and neither rate wraps |
| `Args.StrToNatOfDigits` | src/common/args.cc:15 | `strtoul` of the decimal form of `n` gives `n` back |
| `Args.ParseArgsSpec` | src/common/args.cc:3-52 | a successful parse has `0 < message_size <= MAX_MESSAGE_SIZE` and `iterations > 0` |
| `Args.ParseLauncherArgsSpec` | src/common/args.cc:54-115 | as `parse_args`, and the benchmark name is non-empty |
| `Args.ParseArgs` | src/common/args.cc:3-52 | the `getopt` loop and the checks return exactly `ParseArgsSpec`: usage error on an unknown option, then missing option, not positive, too large |
| `Args.ParseLauncherArgs` | src/common/args.cc:54-115 | the launcher's loop and checks return exactly `ParseLauncherArgsSpec`, with the empty-name check last |
| `Args.LastOptionWins` | src/common/args.cc:14-21 | a later `-m` or `-i` overwrites an earlier one |
| `Args.TwoOptions` | src/common/args.cc:10-26 | `-m m -i i` is accepted by the loop and yields `m` and `i` |
| `Args.MaximumIsInclusive` | src/common/args.cc:42-46 | a size equal to `MAX_MESSAGE_SIZE` is accepted and one above it is refused, although the message says "less than" |
| `Args.LauncherToChildRoundTrip` | src/common/launcher.cc:17-22 | the children parse the launcher's `to_string` arguments back to the launcher's own values |
| `MessageBuffer.CLen` | src/message_queue/message.hh:59-64 | the C-string length of `data` is the index of its first NUL, or its whole length |
| `MessageBuffer.StrNCpy` | src/message_queue/message.hh:59-64 | `strncpy(dest, src, n)` (section 7.24.2.4 of ISO C11): exactly `n` bytes, `src` up to its NUL, then NULs |
| `MessageBuffer.StrNCpyCases` | src/message_queue/message.hh:59-60 | exactly-`size` data is copied verbatim; shorter data is copied and NUL-terminated; longer data is cut to `size` bytes with no terminator |
| `MessageBuffer.MsgbufRAII.constructor` | src/message_queue/message.hh:31-42 | `size` and `mtype` as given, every payload byte `'1'` |
| `MessageBuffer.MsgbufRAII.New` | src/message_queue/message.hh:31-42 | construction fails with `bad_alloc` iff `malloc` fails; otherwise it yields the constructor's state |
| `MessageBuffer.MsgbufRAII.GetLen` | src/message_queue/message.hh:54-57 | returns the construction size, which is the buffer's length |
| `MessageBuffer.MsgbufRAII.SetData` | src/message_queue/message.hh:61-64 | the payload becomes `strncpy(data, size)`; only the payload is written, so `mtype` and `size` are untouched |
| `PingPong.Zeros` | src/shm/shm.cc:58 | a newly sized object reads as `n` zero bytes |
| `PingPong.FitsBelow` | src/shm/server.cc:29-34 | if the digits of `i` fit, so do those of `i - 1` |
| `PingPong.LayoutSlots` | src/shm/shm.cc:122-130 | after messages `0 .. n-1` are written in order, slot `r` holds the latest message on ring position `r`, or zeros if there is none yet |
| `PingPong.SlotHistoryStep` | src/shm/shm.cc:122-130 | writing message `p` makes it the latest occupant of its own slot and leaves every other slot's occupant as it was |
| `PingPong.LatestStep` | src/shm/shm.cc:126-128 | message `p` becomes the latest on its own ring position; the latest on every other position is unchanged |
| `PingPong.SlotsApart` | src/shm/shm.hh:32-35 | the slots of two different ring positions do not overlap |
| `PingPong.LatestOneLapBack` | src/shm/shm.hh:12-13 | after the first lap the latest message on the position of `n` is `n - 4096` |
| `PingPong.PreviousOccupantDiffers` | src/shm/client.cc:42-46 | the previous occupant of message `n`'s slot, zeros or message `n - 4096`, is never message `n` |
| `PingPong.SpliceSlot` | src/shm/shm.cc:125 | writing into the slot of position `p` replaces that slot and leaves all other slots as they were |
| `PingPong.FirstLap` | src/shm/shm.hh:12-13 | in the first lap the slot of message `n` has not been written |
| `PingPong.LaterLap` | src/shm/shm.hh:12-13 | after the first lap the slot of message `n` holds message `n - 4096` |
| `PingPong.MessageNotZeros` | src/shm/server.cc:31-34 | a message is never an all-zero slot |
| `PingPong.StaleSlotNeverMatches` | src/shm/client.cc:42-46 | before message `n` is written, its slot does not hold it (zeros, or message `n - 4096`): a reader cannot accept a stale message |
| `PingPong.FreshSlotMatches` | src/shm/shm.cc:132-144 | once message `n` is written, its slot holds exactly it |
| `PingPong.SlotMatchesWhenWritten` | src/shm/shm.cc:132-144 | the slot of message `i` matches it iff message `i` has been written |
| `PingPong.OpenChannels` | src/shm/server.cc:20-24 | both rings constructed and mapped, `s2c` first, stopping at the first exception (the server's size query in between); on success both are mapped with zero cursors |
| `PingPong.LockstepCursors` | src/shm/client.cc:42-47 | between rounds each writer's cursor equals its reader's, and both are `(i * message_size) mod shm_size` |
| `PingPong.Send` | src/shm/server.cc:45 | writing message `i` takes the ring from `Layout(i)` to `Layout(i + 1)` |
| `PingPong.Poll` | src/shm/server.cc:46-50 | one pass of the spin succeeds iff message `i` has been written, and consumes it only then |
| `PingPong.Exchange` | src/shm/client.cc:42-47 | a poll before the peer's write fails, the write lands, and a poll after it succeeds; both cursors advance by one message |
| `PingPong.Round` | src/shm/server.cc:40-53 | one round takes both rings from `Layout(i)` to `Layout(i + 1)`, each spin ending on the right message, and records one duration and one message |
| `PingPong.NextRound` | src/shm/server.cc:40-53 | round `i` with its own clock readings extends the recorded durations by one |
| `PingPong.Rounds` | src/shm/server.cc:40-53 | after the loop, `iterations` messages have gone each way, `durations` is one entry per round and `niterations == total_messages == iterations` |
| `PingPong.Durations` | src/common/bench.cc:38-39 | one duration per pair of clock readings |
| `PingPong.DurationsStep` | src/common/bench.cc:38-39 | one more reading appends one more duration |
| `PingPong.NotifyGroup` | src/shm/client.cc:37 | the client's `notify` reaches the launcher, itself and the server; nobody is killed and only the server's flag changes, which makes its wait ready |
| `PingPong.StartServer` | src/shm/server.cc:11-39 | handlers, `Benchmarks`, both rings, then the message table; the setup error is the first exception thrown (a ring call, or the table's allocation), and unwinding then runs the zero-iteration report, which divides by zero; otherwise both rings are mapped with zero cursors, the messages are precomputed, `Benchmarks` is empty and no signal has arrived yet |
| `PingPong.Measure` | src/shm/server.cc:39-54 | the server leaves its wait, all rounds complete, and the destructor runs `report` as written on the summed durations with `iterations` iterations and messages |
| `PingPong.StartClient` | src/shm/client.cc:16-34 | both rings, then the client's handlers, then its message table, stopping at the first exception (a ring call, or the table's allocation) |
| `PingPong.ZeroSegment` | src/shm/shm.cc:58 | a fresh zero-filled segment of `n` bytes |
| `PingPong.StartLauncher` | src/common/launcher.cc:26-29 | the launcher installs handlers that ignore both user signals |
| `PingPong.RunClient` | src/shm/client.cc:11-59 | the client's `main` with the server waiting: when both set up, the client returns 0 and the server ends as its as-written report dictates (0 and the figures, or a crash); a client setup error returns 1 and leaves the server spinning with no report; after a server setup error the client spins in its first poll and the server ends by its destroyed `Benchmarks`; nobody is killed by a user signal |
| `PingPong.FinalReport` | src/common/bench.cc:48-59 | after `iterations` rounds the as-written report lets the server return 0 with exactly the `Report` figures when the total duration is nonzero and no rate wraps, and crashes it when the total duration is 0 |
| `PingPong.Run` | src/common/launcher.cc:12-83 | when both setups succeed, the client returns 0 and the server returns 0 with the exact `Report` figures if the rounds took time and no rate wraps, but crashes dividing by a zero total duration; a server setup error crashes the server in its zero-iteration report and leaves the client spinning (or returning 1 if its own setup failed); a client setup error returns 1 and leaves the server spinning; the launcher is never killed |
| `PingPong.OverlongIterationsAccepted` | src/common/args.cc:36-46 | for every `MAX_MESSAGE_SIZE`, `parse_args` accepts `-m 1 -i 11`, yet the last message number, 10, does not fit in one byte |

## Left out

- Teardown: the `ShmManager` destructor (`shm_unlink`, `munmap`), `~MsgbufRAII` and `free`. No model property depends on them.
- The unmodelled destructor passes `MAP_FAILED` to `munmap` after a failed map. The model records `MAP_FAILED` but does not model the destructor.
- OS calls are parameters: each process's `shm_open`, `ftruncate`, `fstat` and `mmap` results (`OsCalls`, `SetupCalls`), `malloc`'s success and the kernel's mapped view (an array), and whether the message table's allocations succeed. The model does not open file descriptors.
- Every new segment is zero-filled, as `ftruncate` leaves a new object. A segment left behind by an earlier run is not modelled.
- `Shm.ShmManager.GetShmSize` returns the segment's length. A size that differs from `shm_size` (the disabled `ASSERT`) is not modelled.
- Real concurrency, memory visibility and cross-process signal delivery are not modelled. The run is one sequential interleaving. Each busy-wait is one failed poll before the peer's write and one successful poll after it. A spin that never ends is an `Exit` of `Spins`.
- The launcher sleeps 500 ms between forks so that the server reaches its wait first. The model takes this ordering as given.
- `fork`, `execl`, `waitpid` and the launcher's error exits are not modelled.
- `clock_gettime` readings are parameters (`Tick`), and the clock is required to be monotone.
- `report`'s stdout formatting is not modelled; only its integer figures are.
- `PingPong.Run`: requires a power-of-two `message_size` and that the digits of `iterations - 1` fit in `message_size`. The code checks neither. Without a power of two, the masked cursor step is not reduction modulo the segment (`Bits.MaskDivergesWithoutPow2`). Without the fit, the precompute loop overruns its string (see Findings).
- `PingPong.RunClient`: the same two assumptions as `Run`.
- `PingPong.Measure`: the same two assumptions as `Run`, and both segments start zero-filled.
- `PingPong.Rounds`: the same two assumptions as `Run`.
- `Messages.MakeMessages`: requires that the digits of `iterations - 1` fit. The overrunning `std::copy` is modelled only by `PayloadAsWritten` and `OverrunAsWritten`. It models the loop whose allocations succeed; their failure is a setup error of `PingPong.StartServer` and `PingPong.StartClient`.
- `Args.StrToNat` models `strtoul` on a string's leading decimal digits only. Leading whitespace, signs, other bases and overflow to `ULONG_MAX` are not modelled.
- `getopt` is not modelled. The parsers take the option list it yields; an unknown option or a missing argument appears as `'?'`.
- `MAX_MESSAGE_SIZE` is defined in a header that is not part of this model, so it is a parameter.
- `Bench.Benchmarks.EndIteration`: `total_duration_ns` and `total_messages` are unbounded. Their 64-bit wrap-around is modelled only in the `report` products.
- `Bench.Report` is the corrected `report` (see Findings). The code as written is `Bench.ReportAsWritten`, which the destructor and the driver use.
- An integer division by zero is undefined behaviour in C++. The model takes the usual Linux outcome, a `SIGFPE` that kills the process (`Exit` `Crashed`). Output printed before the faulting line is not modelled.
- Allocation failure of the message table is one flag per process (`SetupCalls.allocOk`). The model does not tell `reserve`'s `std::length_error` (more than `max_size()` elements) from a `std::bad_alloc` in `reserve` or `push_back`. Both end the setup the same way.
- Integer widths: `size_t`, `off_t` and `unsigned long long` cursors and counters are unbounded naturals. Cursors stay below `shm_size`.
- `MessageBuffer.MsgbufRAII`: `data_ptr` and the raw `Msgbuf` layout (`mtype` and the flexible array in one `malloc` block) are not modelled. The payload is an array of `size` characters.
- The other transports (pipe, named pipe, Unix socket, message-queue server and client) are not modelled.
- `queue_ops` is not modelled, including its `expand` command, which parses `argv[2]` (the queue name) as the size.
- Server and client build equal message tables, and the model proves this. Each round therefore carries one message for both sides.

## Findings

| source | as written | input that shows it | evidently intended | confidence | as-written member | corrected member |
|---|---|---|---|---|---|---|
| src/common/bench.cc:55 | `total_duration_ns / niterations` with no guard; `~Benchmarks` always calls `report` (src/common/bench.hh:44-47) | the server's `init_shm` throws (e.g. `shm_open` fails) after `Benchmarks` is built at src/shm/server.cc:18; unwinding reports with `niterations = 0` and `total_duration_ns = 0` | skip the per-iteration and rate figures when their divisor is 0 | not executed; high | `Bench.ReportWithoutIterationsFaults` | `Bench.Report` |
| src/common/bench.cc:58 | `total_messages * message_size * NS_PER_SEC` computed in 64 bits | 10^7 messages of 4096 bytes in 10 s: the product 4.096 × 10^19 exceeds 2^64, so it prints 406651185 instead of 4096000000 | the exact bytes-per-second quotient | not executed; medium | `Bench.BytesPerSecWraps` | `Bench.Report` |
| src/shm/server.cc:31-34 | `std::copy` of `to_string(i)` into a string of `message_size` bytes, with no length check (also src/shm/client.cc:29-32) | `-m 1 -i 11` passes `parse_args`; message 10 is `"10"`, two bytes copied into a one-byte string; the byte kept equals message 1 | every payload's number fits in `message_size`, so payloads stay in bounds and distinct | not executed; high | `Messages.OverlongPayloadsCollide` | `Messages.MakeMessages` |
