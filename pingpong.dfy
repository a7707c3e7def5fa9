/**
 * The shared-memory ping-pong benchmark: a server and a client each map the
 * two rings (server-to-client and client-to-server), precompute the same
 * numbered messages, rendezvous by signal, and then alternate: the server
 * writes message `i` and polls for its echo, the client polls for message
 * `i` and echoes it. The two processes run here as one sequential
 * interleaving of their steps.
 */
module PingPong {
  import opened Wrappers
  import opened Bits
  import opened Shm
  import opened Messages
  import opened Signals
  import opened Bench
  import opened Args

  /** A freshly sized shared-memory object reads as zero bytes. */
  function Zeros(n: nat): (s: seq<char>)
    ensures |s| == n && forall k :: 0 <= k < n ==> s[k] == NUL
  {
    seq(n, _ => NUL)
  }

  /** A number with fewer digits fits wherever a larger one does. */
  lemma FitsBelow(i: nat, messageSize: nat)
    requires Fits(i, messageSize)
    ensures i == 0 || Fits(i - 1, messageSize)
  {
    if i > 0 {
      DigitsMonotone(i - 1, i);
    }
  }

  // ---------------------------------------------------------------------------
  // Ring contents

  /** Contents of a ring after messages `0 .. n-1` have been written, in order,
      into a zero-filled segment. */
  function Layout(n: nat, messageSize: nat): (s: seq<char>)
    requires n == 0 || Fits(n - 1, messageSize)
    ensures |s| == messageSize * SHM_NUM_MSG
    decreases n
  {
    if n == 0 then Zeros(messageSize * SHM_NUM_MSG)
    else
      FitsBelow(n - 1, messageSize);
      SlotInBounds(n - 1, messageSize);
      Splice(Layout(n - 1, messageSize), SlotOffset(n - 1, messageSize), Message(n - 1, messageSize))
  }

  /** The `messageSize` bytes of the slot that message `k` occupies. */
  function Slot(s: seq<char>, k: nat, messageSize: nat): (m: seq<char>)
    requires |s| == messageSize * SHM_NUM_MSG
    ensures |m| == messageSize
  {
    SlotInBounds(k, messageSize);
    s[SlotOffset(k, messageSize)..SlotOffset(k, messageSize) + messageSize]
  }

  /** The latest message number below `n` that falls on ring position `r`. */
  function LatestAt(n: nat, r: nat): (j: nat)
    requires r < n
    ensures j < n
  {
    r + SHM_NUM_MSG * ((n - 1 - r) / SHM_NUM_MSG)
  }

  /** What slot `r` holds once messages `0 .. n-1` have been written: still
      zeros, or the latest message whose number is `r` modulo `SHM_NUM_MSG`. */
  function SlotHistory(n: nat, r: nat, messageSize: nat): (m: seq<char>)
    requires n == 0 || Fits(n - 1, messageSize)
    requires r < SHM_NUM_MSG
    ensures |m| == messageSize
  {
    if n <= r then Zeros(messageSize)
    else
      DigitsMonotone(LatestAt(n, r), n - 1);
      Message(LatestAt(n, r), messageSize)
  }

  /** Overwriting one byte range leaves a disjoint range as it was. */
  lemma SpliceElsewhere(s: seq<char>, offset: nat, m: seq<char>, a: nat, len: nat)
    requires offset + |m| <= |s| && a + len <= |s|
    requires a + len <= offset || offset + |m| <= a
    ensures Splice(s, offset, m)[a..a + len] == s[a..a + len]
  {
    var t := Splice(s, offset, m);
    var e := offset + |m|;
    if a + len <= offset {
      assert t[..offset] == s[..offset];
      assert t[a..a + len] == t[..offset][a..a + len];
      assert s[a..a + len] == s[..offset][a..a + len];
    } else {
      assert t[e..] == s[e..];
      assert t[a..a + len] == t[e..][a - e..a - e + len];
      assert s[a..a + len] == s[e..][a - e..a - e + len];
    }
  }

  /** Slots of distinct ring positions do not overlap. */
  lemma SlotsApart(p: nat, r: nat, messageSize: nat)
    requires p % SHM_NUM_MSG != r % SHM_NUM_MSG
    ensures || SlotOffset(p, messageSize) + messageSize <= SlotOffset(r, messageSize)
            || SlotOffset(r, messageSize) + messageSize <= SlotOffset(p, messageSize)
  {
    var x, y := p % SHM_NUM_MSG, r % SHM_NUM_MSG;
    if x < y {
      MulLeMono(x + 1, y, messageSize);
      assert (x + 1) * messageSize == x * messageSize + messageSize;
    } else {
      MulLeMono(y + 1, x, messageSize);
      assert (y + 1) * messageSize == y * messageSize + messageSize;
    }
  }

  /** Message `p` becomes the latest on its own ring position and leaves the
      latest on every other position as it was. */
  lemma LatestStep(p: nat, r: nat)
    requires r < SHM_NUM_MSG && r <= p
    ensures p % SHM_NUM_MSG == r ==> LatestAt(p + 1, r) == p
    ensures p % SHM_NUM_MSG != r ==> r < p && LatestAt(p + 1, r) == LatestAt(p, r)
  {
    var q := p / SHM_NUM_MSG;
    var w := p % SHM_NUM_MSG;
    assert p == SHM_NUM_MSG * q + w;
    if w == r {
      DivModUnique(p - r, SHM_NUM_MSG, q, 0);
    } else {
      if p == r {
        DivModUnique(p, SHM_NUM_MSG, 0, r);
      }
      var a := p - 1 - r;
      var qa, ma := a / SHM_NUM_MSG, a % SHM_NUM_MSG;
      assert a == SHM_NUM_MSG * qa + ma;
      if ma + 1 == SHM_NUM_MSG {
        DivModUnique(p, SHM_NUM_MSG, qa + 1, r);
      }
      DivModUnique(a + 1, SHM_NUM_MSG, qa, ma + 1);
    }
  }

  /** Writing message `p` makes it the latest occupant of its own slot and
      leaves the latest occupant of every other slot as it was. */
  lemma SlotHistoryStep(p: nat, r: nat, messageSize: nat)
    requires Fits(p, messageSize)
    requires r < SHM_NUM_MSG
    ensures (FitsBelow(p, messageSize);
             SlotHistory(p + 1, r, messageSize)
             == if p % SHM_NUM_MSG == r then Message(p, messageSize) else SlotHistory(p, r, messageSize))
  {
    FitsBelow(p, messageSize);
    if p < r {
      DivModUnique(p, SHM_NUM_MSG, 0, p);
    } else {
      LatestStep(p, r);
    }
  }

  /** A ring position below `SHM_NUM_MSG` is its own slot index. */
  lemma PositionSlot(p: nat, r: nat, messageSize: nat)
    requires r < SHM_NUM_MSG
    ensures r % SHM_NUM_MSG == r
    ensures p % SHM_NUM_MSG == r ==> SlotOffset(p, messageSize) == SlotOffset(r, messageSize)
  {
    DivModUnique(r, SHM_NUM_MSG, 0, r);
  }

  lemma SameSlot(s: seq<char>, k: nat, r: nat, messageSize: nat)
    requires |s| == messageSize * SHM_NUM_MSG
    requires SlotOffset(k, messageSize) == SlotOffset(r, messageSize)
    ensures Slot(s, k, messageSize) == Slot(s, r, messageSize)
  {
  }

  /** Every slot of the zero-filled segment is zeros. */
  lemma ZeroSlot(r: nat, messageSize: nat)
    ensures Slot(Zeros(messageSize * SHM_NUM_MSG), r, messageSize) == Zeros(messageSize)
  {
    SlotInBounds(r, messageSize);
  }

  /** Writing `m` into the slot of position `p` replaces that slot and leaves
      every other slot as it was. */
  lemma SpliceSlot(before: seq<char>, p: nat, r: nat, m: seq<char>, messageSize: nat)
    requires |before| == messageSize * SHM_NUM_MSG && |m| == messageSize
    requires r < SHM_NUM_MSG
    ensures SlotOffset(p, messageSize) + messageSize <= |before|
    ensures Slot(Splice(before, SlotOffset(p, messageSize), m), r, messageSize)
            == if p % SHM_NUM_MSG == r then m else Slot(before, r, messageSize)
  {
    SlotInBounds(p, messageSize);
    SlotInBounds(r, messageSize);
    PositionSlot(p, r, messageSize);
    if p % SHM_NUM_MSG != r {
      SlotsApart(p, r, messageSize);
      SpliceElsewhere(before, SlotOffset(p, messageSize), m, SlotOffset(r, messageSize), messageSize);
    }
  }

  /** Every slot of `Layout(n)` holds what `SlotHistory` says. */
  lemma {:induction false} LayoutSlots(n: nat, r: nat, messageSize: nat)
    requires n == 0 || Fits(n - 1, messageSize)
    requires r < SHM_NUM_MSG
    ensures Slot(Layout(n, messageSize), r, messageSize) == SlotHistory(n, r, messageSize)
    decreases n
  {
    if n == 0 {
      ZeroSlot(r, messageSize);
    } else {
      var p := n - 1;
      FitsBelow(p, messageSize);
      LayoutSlots(p, r, messageSize);
      SlotHistoryStep(p, r, messageSize);
      MessageRoundTrip(p, messageSize);
      SpliceSlot(Layout(p, messageSize), p, r, Message(p, messageSize), messageSize);
    }
  }

  /** In the first lap the slot of message `n` has had no occupant. */
  lemma FirstLap(n: nat, messageSize: nat)
    requires Fits(n, messageSize) && n < SHM_NUM_MSG
    ensures (FitsBelow(n, messageSize); SlotHistory(n, n % SHM_NUM_MSG, messageSize) == Zeros(messageSize))
  {
    FitsBelow(n, messageSize);
    PositionSlot(n, n, messageSize);
  }

  /** After the first lap the latest message on the ring position of `n` is
      the one a lap earlier. */
  lemma LatestOneLapBack(n: nat)
    requires SHM_NUM_MSG <= n
    ensures n % SHM_NUM_MSG < n && LatestAt(n, n % SHM_NUM_MSG) == n - SHM_NUM_MSG
  {
    var r := n % SHM_NUM_MSG;
    var q := n / SHM_NUM_MSG;
    assert n == SHM_NUM_MSG * q + r && q >= 1;
    DivModUnique(n - 1 - r, SHM_NUM_MSG, q - 1, SHM_NUM_MSG - 1);
  }

  /** After the first lap the slot of message `n` holds message `n - SHM_NUM_MSG`. */
  lemma LaterLap(n: nat, messageSize: nat)
    requires Fits(n, messageSize) && SHM_NUM_MSG <= n
    ensures Fits(n - SHM_NUM_MSG, messageSize)
    ensures (FitsBelow(n, messageSize);
             SlotHistory(n, n % SHM_NUM_MSG, messageSize) == Message(n - SHM_NUM_MSG, messageSize))
  {
    FitsBelow(n, messageSize);
    DigitsMonotone(n - SHM_NUM_MSG, n);
    LatestOneLapBack(n);
  }

  /** The slot message `n` will occupy holds the latest occupant of its ring position. */
  lemma SlotOfNext(n: nat, messageSize: nat)
    requires Fits(n, messageSize)
    ensures (FitsBelow(n, messageSize);
             Slot(Layout(n, messageSize), n, messageSize) == SlotHistory(n, n % SHM_NUM_MSG, messageSize))
  {
    FitsBelow(n, messageSize);
    var r := n % SHM_NUM_MSG;
    LayoutSlots(n, r, messageSize);
    PositionSlot(n, r, messageSize);
    SameSlot(Layout(n, messageSize), n, r, messageSize);
  }

  /** A message is never an all-zero slot: it starts with a digit. */
  lemma MessageNotZeros(n: nat, messageSize: nat)
    requires Fits(n, messageSize)
    ensures Message(n, messageSize) != Zeros(messageSize)
  {
    MessageRoundTrip(n, messageSize);
    assert Message(n, messageSize)[0] != NUL;
  }

  /** The previous occupant of message `n`'s slot is never message `n` itself. */
  lemma PreviousOccupantDiffers(n: nat, messageSize: nat)
    requires Fits(n, messageSize)
    ensures (FitsBelow(n, messageSize);
             SlotHistory(n, n % SHM_NUM_MSG, messageSize) != Message(n, messageSize))
  {
    FitsBelow(n, messageSize);
    if n < SHM_NUM_MSG {
      FirstLap(n, messageSize);
      MessageNotZeros(n, messageSize);
    } else {
      LaterLap(n, messageSize);
      MessagesDistinct(n - SHM_NUM_MSG, n, messageSize);
    }
  }

  /** Before message `n` is written, its slot never already holds it: the
      slot holds zeros or message `n - SHM_NUM_MSG`. This is what makes
      polling by content sound. */
  lemma StaleSlotNeverMatches(n: nat, messageSize: nat)
    requires Fits(n, messageSize)
    ensures (FitsBelow(n, messageSize);
             Slot(Layout(n, messageSize), n, messageSize) != Message(n, messageSize))
  {
    FitsBelow(n, messageSize);
    SlotOfNext(n, messageSize);
    PreviousOccupantDiffers(n, messageSize);
  }

  /** Once message `n` is written its slot holds exactly it. */
  lemma FreshSlotMatches(n: nat, messageSize: nat)
    requires Fits(n, messageSize)
    ensures Slot(Layout(n + 1, messageSize), n, messageSize) == Message(n, messageSize)
  {
    FitsBelow(n, messageSize);
    SlotInBounds(n, messageSize);
    MessageRoundTrip(n, messageSize);
  }

  // ---------------------------------------------------------------------------
  // Processes and their setup

  /** The two rings as one process maps them. */
  datatype Side = Side(s2c: ShmManager, c2s: ShmManager)

  /** What the kernel and the allocator answer during one process's setup:
      the calls of the server-to-client `init_shm`, of the optional
      `get_shm_size` query (`shm_open` and `fstat` succeeding), of the
      client-to-server `init_shm`, and whether the message table's `reserve`
      and `push_back` allocations succeed. */
  datatype SetupCalls = SetupCalls(s2c: OsCalls, sizeQuery: Option<(bool, bool)>, c2s: OsCalls, allocOk: bool)

  /** The exception a setup throws: one from mapping a ring, or the
      `std::length_error` or `std::bad_alloc` of building the message table. */
  datatype SetupFailure = ChannelFailed(error: InitError) | AllocFailed

  /** The first exception the ring calls raise, in the order `main` makes them. */
  function ChannelError(calls: SetupCalls): Option<InitError>
  {
    if InitOutcome(calls.s2c).Some? then InitOutcome(calls.s2c)
    else if calls.sizeQuery.Some? && !calls.sizeQuery.value.0 then Some(ShmOpenFailed)
    else if calls.sizeQuery.Some? && !calls.sizeQuery.value.1 then Some(FstatFailed)
    else InitOutcome(calls.c2s)
  }

  /** The first exception of the whole setup: the rings are mapped before the
      message table is built. */
  function SetupError(calls: SetupCalls): Option<SetupFailure>
  {
    if ChannelError(calls).Some? then Some(ChannelFailed(ChannelError(calls).value))
    else if !calls.allocOk then Some(AllocFailed)
    else None
  }

  /** `m` is a valid view of `segment` with cursors for `messageSize`-byte messages. */
  ghost predicate Channel(m: ShmManager, messageSize: nat, segment: array<char>)
    reads m
  {
    m.Valid() && m.messageSize == messageSize && m.ptr == Mapped(segment)
  }

  /** A process's view once setup succeeded: both rings mapped with fresh
      cursors, and its `iterations` messages precomputed. */
  ghost predicate Opened(side: Side, messageSize: nat, segS2C: array<char>, segC2S: array<char>,
                         messages: seq<string>, iterations: nat)
    reads side.s2c, side.c2s
  {
    && Channel(side.s2c, messageSize, segS2C) && Channel(side.c2s, messageSize, segC2S)
    && side.s2c.written == 0 && side.s2c.consumed == 0
    && side.c2s.written == 0 && side.c2s.consumed == 0
    && |messages| == iterations && IsPrecomputed(messages, messageSize)
  }

  /** Constructs and maps both rings, server-to-client first, stopping at the
      first exception; the server asks for the segment size in between. */
  method OpenChannels(messageSize: nat, calls: SetupCalls, segS2C: array<char>, segC2S: array<char>)
    returns (side: Side, err: Option<InitError>)
    requires 0 < messageSize
    requires segS2C.Length == messageSize * SHM_NUM_MSG && segC2S.Length == messageSize * SHM_NUM_MSG
    ensures fresh(side.s2c) && fresh(side.c2s) && side.s2c != side.c2s
    ensures err == ChannelError(calls)
    ensures err == None ==>
      && Channel(side.s2c, messageSize, segS2C) && Channel(side.c2s, messageSize, segC2S)
      && side.s2c.written == 0 && side.s2c.consumed == 0
      && side.c2s.written == 0 && side.c2s.consumed == 0
  {
    var s2c := new ShmManager(messageSize, SHM_NAME_S2C);
    var c2s := new ShmManager(messageSize, SHM_NAME_C2S);
    side := Side(s2c, c2s);
    err := s2c.InitShm(calls.s2c, segS2C);
    if err.Some? {
      return;
    }
    if calls.sizeQuery.Some? {
      var size := s2c.GetShmSize(calls.sizeQuery.value.0, calls.sizeQuery.value.1);
      if size.Failure? {
        return side, Some(size.error);
      }
    }
    err := c2s.InitShm(calls.c2s, segC2S);
  }

  // ---------------------------------------------------------------------------
  // The rounds

  /** State between rounds: `i` messages have gone each way, every ring holds
      `Layout(i)`, and each writer's count equals its reader's. */
  ghost predicate InLockstep(i: nat, messageSize: nat, server: Side, client: Side,
                             segS2C: array<char>, segC2S: array<char>)
    reads server.s2c, server.c2s, client.s2c, client.c2s, segS2C, segC2S
  {
    && IsPow2(messageSize) && (i == 0 || Fits(i - 1, messageSize))
    && Channel(server.s2c, messageSize, segS2C) && Channel(client.s2c, messageSize, segS2C)
    && Channel(server.c2s, messageSize, segC2S) && Channel(client.c2s, messageSize, segC2S)
    && server.s2c.written == i && client.s2c.consumed == i
    && client.c2s.written == i && server.c2s.consumed == i
    && segS2C[..] == Layout(i, messageSize) && segC2S[..] == Layout(i, messageSize)
  }

  /** The four cursor objects and the two segments are distinct. */
  predicate Separate(server: Side, client: Side, segS2C: array<char>, segC2S: array<char>)
  {
    && server.s2c != server.c2s && server.s2c != client.s2c && server.s2c != client.c2s
    && server.c2s != client.s2c && server.c2s != client.c2s && client.s2c != client.c2s
    && segS2C != segC2S
  }

  /** Between rounds each writer's cursor equals its reader's, and both are
      the bytes sent so far modulo the segment size. */
  lemma LockstepCursors(i: nat, messageSize: nat, server: Side, client: Side,
                        segS2C: array<char>, segC2S: array<char>)
    requires InLockstep(i, messageSize, server, client, segS2C, segC2S)
    ensures server.s2c.writeOffset == client.s2c.readOffset
            == (i * messageSize) % (messageSize * SHM_NUM_MSG)
    ensures client.c2s.writeOffset == server.c2s.readOffset
            == (i * messageSize) % (messageSize * SHM_NUM_MSG)
  {
    SlotOffsetIsBytesMod(i, messageSize);
  }

  /** The writer puts message `i` into its slot: the ring goes from
      `Layout(i)` to `Layout(i + 1)`. */
  method Send(i: nat, messageSize: nat, message: string, writer: ShmManager, segment: array<char>)
    requires IsPow2(messageSize) && Fits(i, messageSize) && message == Message(i, messageSize)
    requires Channel(writer, messageSize, segment) && writer.written == i
    requires (FitsBelow(i, messageSize); segment[..] == Layout(i, messageSize))
    modifies writer`writeOffset, writer`written, segment
    ensures Channel(writer, messageSize, segment) && writer.written == i + 1
    ensures segment[..] == Layout(i + 1, messageSize)
  {
    writer.RoomAtCursors();
    MessageRoundTrip(i, messageSize);
    writer.WriteShm(message);
  }

  /** The slot of message `i` holds it exactly when it has been written. */
  lemma SlotMatchesWhenWritten(i: nat, n: nat, messageSize: nat)
    requires Fits(i, messageSize) && (n == i || n == i + 1)
    ensures (FitsBelow(i, messageSize);
             Slot(Layout(n, messageSize), i, messageSize) == Message(i, messageSize) <==> n == i + 1)
  {
    FitsBelow(i, messageSize);
    if n == i {
      StaleSlotNeverMatches(i, messageSize);
    } else {
      FreshSlotMatches(i, messageSize);
    }
  }

  /** One pass of the reader's spin for message `i` when the ring holds
      `Layout(n)`: it matches exactly when message `i` has been written. */
  method Poll(i: nat, n: nat, messageSize: nat, message: string, reader: ShmManager, segment: array<char>)
    returns (found: bool)
    requires IsPow2(messageSize) && Fits(i, messageSize) && message == Message(i, messageSize)
    requires n == i || n == i + 1
    requires Channel(reader, messageSize, segment) && reader.consumed == i
    requires (FitsBelow(i, messageSize); segment[..] == Layout(n, messageSize))
    modifies reader`readOffset, reader`consumed
    ensures Channel(reader, messageSize, segment)
    ensures found <==> n == i + 1
    ensures reader.consumed == if found then i + 1 else i
  {
    FitsBelow(i, messageSize);
    reader.RoomAtCursors();
    SlotMatchesWhenWritten(i, n, messageSize);
    found := reader.ReadShmUntil(message);
  }

  /** One message through one ring, with the reader's spin shown as a poll
      before the writer's write and a poll after it: the early poll finds the
      stale slot and fails, the late one finds message `i` and matches. */
  method Exchange(i: nat, messageSize: nat, message: string,
                  writer: ShmManager, reader: ShmManager, segment: array<char>)
    returns (early: bool, late: bool)
    requires IsPow2(messageSize) && Fits(i, messageSize) && message == Message(i, messageSize)
    requires writer != reader
    requires Channel(writer, messageSize, segment) && Channel(reader, messageSize, segment)
    requires writer.written == i && reader.consumed == i
    requires (FitsBelow(i, messageSize); segment[..] == Layout(i, messageSize))
    modifies writer`writeOffset, writer`written, reader`readOffset, reader`consumed, segment
    ensures Channel(writer, messageSize, segment) && Channel(reader, messageSize, segment)
    ensures writer.written == i + 1 && reader.consumed == i + 1
    ensures segment[..] == Layout(i + 1, messageSize)
    ensures !early && late
  {
    early := Poll(i, i, messageSize, message, reader, segment);
    Send(i, messageSize, message, writer, segment);
    late := Poll(i, i + 1, messageSize, message, reader, segment);
  }

  /** Round `i` of the ping-pong: the server times one message to the client
      and its echo back. */
  method Round(i: nat, messageSize: nat, message: string, server: Side, client: Side,
               segS2C: array<char>, segC2S: array<char>, bench: Benchmarks, startNs: nat, endNs: nat)
    returns (clientEarly: bool, clientSaw: bool, serverEarly: bool, serverSaw: bool)
    requires InLockstep(i, messageSize, server, client, segS2C, segC2S)
    requires Separate(server, client, segS2C, segC2S)
    requires Fits(i, messageSize) && message == Message(i, messageSize)
    requires bench.Valid() && startNs <= endNs
    modifies server.s2c`writeOffset, server.s2c`written, client.s2c`readOffset, client.s2c`consumed
    modifies client.c2s`writeOffset, client.c2s`written, server.c2s`readOffset, server.c2s`consumed
    modifies segS2C, segC2S, bench`startNs, bench`durations, bench`totalDurationNs, bench`totalMessages
    modifies bench`niterations
    ensures InLockstep(i + 1, messageSize, server, client, segS2C, segC2S)
    ensures !clientEarly && clientSaw && !serverEarly && serverSaw
    ensures bench.Valid()
    ensures bench.durations == old(bench.durations) + [endNs - startNs]
    ensures bench.totalMessages == old(bench.totalMessages) + 1
    ensures bench.niterations == old(bench.niterations) + 1
  {
    var status := bench.StartIteration(startNs);
    clientEarly, clientSaw := Exchange(i, messageSize, message, server.s2c, client.s2c, segS2C);
    serverEarly, serverSaw := Exchange(i, messageSize, message, client.c2s, server.c2s, segC2S);
    status := bench.EndIteration(1, endNs);
  }

  // ---------------------------------------------------------------------------
  // The whole run

  /** The two `CLOCK_MONOTONIC` readings the server takes in one round. */
  datatype Tick = Tick(start: nat, end: nat)

  predicate Monotone(ticks: seq<Tick>)
  {
    forall k :: 0 <= k < |ticks| ==> ticks[k].start <= ticks[k].end
  }

  /** The durations `end_iteration` records for these readings. */
  function Durations(ticks: seq<Tick>): (d: seq<nat>)
    requires Monotone(ticks)
    ensures |d| == |ticks|
  {
    if ticks == [] then []
    else Durations(ticks[..|ticks| - 1]) + [ticks[|ticks| - 1].end - ticks[|ticks| - 1].start]
  }

  /** One more reading appends one more duration. */
  lemma DurationsStep(ticks: seq<Tick>, i: nat)
    requires Monotone(ticks) && i < |ticks|
    ensures Monotone(ticks[..i]) && Monotone(ticks[..i + 1])
    ensures Durations(ticks[..i + 1]) == Durations(ticks[..i]) + [ticks[i].end - ticks[i].start]
  {
    assert ticks[..i + 1][..i] == ticks[..i];
  }

  /** How a process ends: `main` returns a status, it spins forever in a wait
      loop, a user signal's default action kills it, or an integer division
      by zero in its `Benchmarks` report crashes it (`SIGFPE`). */
  datatype Exit = Returned(code: int) | Spins | Killed | Crashed

  /** How the benchmark ends: the server's and the client's exit, whether the
      launcher survived the signals, and the figures the server's
      `Benchmarks` prints in full when it is destroyed. */
  datatype Outcome = Outcome(server: Exit, client: Exit, launcherAlive: bool, report: Option<Figures>)

  function ExitOf(p: Process, code: int): Exit
    reads p
  {
    if p.terminated then Killed else Returned(code)
  }

  /** How the server ends when its `Benchmarks` is destroyed with report `r`
      on the way out of `main` with status `code`. */
  function EndAfterReport(r: Result<Figures, Fault>, code: int): Exit
  {
    if r.Success? then Returned(code) else Crashed
  }

  /** The figures a report prints in full, if it does not fault. */
  function Printed(r: Result<Figures, Fault>): Option<Figures>
  {
    if r.Success? then Some(r.value) else None
  }

  /** After all rounds the server's report decides how it ends: with status 0
      and the exact figures when the rounds took some time and neither rate
      wraps, and by a division by zero when the total duration is 0. */
  lemma FinalReport(totalNs: nat, iterations: nat, messageSize: nat)
    requires 0 < iterations
    ensures var r := ReportAsWritten(totalNs, iterations, iterations, messageSize);
      && (0 < totalNs && RatesFit(iterations, messageSize) ==>
            EndAfterReport(r, 0) == Returned(0) && Printed(r) == Some(Report(totalNs, iterations, iterations, messageSize)))
      && (totalNs == 0 ==> EndAfterReport(r, 0) == Crashed && Printed(r) == None)
  {
    if 0 < totalNs && RatesFit(iterations, messageSize) {
      ReportAgreesWhenDefined(totalNs, iterations, iterations, messageSize);
    }
  }

  /** The client's `notify`: `kill(0, SERVER_SIGNAL)` reaches the launcher, the
      client itself and, while it runs, the server. Only the server's flag
      changes, and nobody is killed. */
  method NotifyGroup(notifier: SignalManager, launcher: Process, server: Process, serverAlive: bool)
    requires notifier.target == Client && notifier.process.Installed(Client)
    requires launcher.Installed(Launcher) && server.Installed(Server)
    requires !launcher.terminated && !server.terminated && !notifier.process.terminated
    modifies launcher`flags, launcher`terminated, server`flags, server`terminated
    modifies notifier.process`flags, notifier.process`terminated
    ensures !launcher.terminated && !server.terminated && !notifier.process.terminated
    ensures launcher.flags == old(launcher.flags) && notifier.process.flags == old(notifier.process.flags)
    ensures server.flags == if serverAlive then old(server.flags).(serverSignalStatus := SERVER_SIGNAL)
                            else old(server.flags)
    ensures serverAlive ==> WaitReady(Server, server.flags)
  {
    var sig := notifier.Notify();
    launcher.Deliver(sig);
    notifier.process.Deliver(sig);
    if serverAlive {
      server.Deliver(sig);
    }
  }

  /** Round `i` of the loop, with the iteration's clock readings. */
  method NextRound(i: nat, messageSize: nat, messages: seq<string>, server: Side, client: Side,
                   segS2C: array<char>, segC2S: array<char>, bench: Benchmarks, ticks: seq<Tick>)
    requires i < |messages| == |ticks| && IsPrecomputed(messages, messageSize) && Monotone(ticks)
    requires InLockstep(i, messageSize, server, client, segS2C, segC2S)
    requires Separate(server, client, segS2C, segC2S)
    requires bench.Valid() && bench.durations == Durations(ticks[..i]) && bench.totalMessages == i
    modifies server.s2c`writeOffset, server.s2c`written, client.s2c`readOffset, client.s2c`consumed
    modifies client.c2s`writeOffset, client.c2s`written, server.c2s`readOffset, server.c2s`consumed
    modifies segS2C, segC2S, bench`startNs, bench`durations, bench`totalDurationNs, bench`totalMessages
    modifies bench`niterations
    ensures InLockstep(i + 1, messageSize, server, client, segS2C, segC2S)
    ensures bench.Valid() && bench.durations == Durations(ticks[..i + 1]) && bench.totalMessages == i + 1
  {
    DurationsStep(ticks, i);
    var clientEarly, clientSaw, serverEarly, serverSaw :=
      Round(i, messageSize, messages[i], server, client, segS2C, segC2S, bench,
            ticks[i].start, ticks[i].end);
  }

  /** All `iterations` rounds, from two empty rings and an empty `Benchmarks`
      to `iterations` messages each way and as many recorded durations. */
  method Rounds(iterations: nat, messageSize: nat, messages: seq<string>, server: Side, client: Side,
                segS2C: array<char>, segC2S: array<char>, bench: Benchmarks, ticks: seq<Tick>)
    requires InLockstep(0, messageSize, server, client, segS2C, segC2S)
    requires Separate(server, client, segS2C, segC2S)
    requires |messages| == iterations && IsPrecomputed(messages, messageSize)
    requires bench.Valid() && bench.durations == [] && bench.totalMessages == 0
    requires |ticks| == iterations && Monotone(ticks)
    modifies server.s2c`writeOffset, server.s2c`written, client.s2c`readOffset, client.s2c`consumed
    modifies client.c2s`writeOffset, client.c2s`written, server.c2s`readOffset, server.c2s`consumed
    modifies segS2C, segC2S, bench`startNs, bench`durations, bench`totalDurationNs, bench`totalMessages
    modifies bench`niterations
    ensures InLockstep(iterations, messageSize, server, client, segS2C, segC2S)
    ensures bench.Valid() && bench.durations == Durations(ticks)
    ensures bench.totalMessages == iterations && bench.niterations == iterations
  {
    var i := 0;
    while i < iterations
      invariant i <= iterations
      invariant InLockstep(i, messageSize, server, client, segS2C, segC2S)
      invariant bench.Valid() && bench.durations == Durations(ticks[..i]) && bench.totalMessages == i
    {
      NextRound(i, messageSize, messages, server, client, segS2C, segC2S, bench, ticks);
      i := i + 1;
    }
    assert ticks[..iterations] == ticks;
  }

  /** The server's `main` up to its wait: handlers, `Benchmarks`, both rings
      and, once they are mapped, the message table and a first pass of the
      wait, which finds no signal yet. When setup throws, unwinding destroys
      `Benchmarks`, whose report divides by zero iterations. */
  method StartServer(messageSize: nat, iterations: nat, calls: SetupCalls,
                     segS2C: array<char>, segC2S: array<char>)
    returns (signals: SignalManager, bench: Benchmarks, side: Side, err: Option<SetupFailure>,
             messages: seq<string>, destroyed: Option<Result<Figures, Fault>>)
    requires 0 < messageSize && 0 < iterations && Fits(iterations - 1, messageSize)
    requires segS2C.Length == messageSize * SHM_NUM_MSG && segC2S.Length == messageSize * SHM_NUM_MSG
    ensures fresh(signals.process) && fresh(bench) && fresh(side.s2c) && fresh(side.c2s)
    ensures side.s2c != side.c2s
    ensures signals.target == Server && signals.process.Installed(Server) && !signals.process.terminated
    ensures signals.process.flags == InitialFlags
    ensures err == SetupError(calls)
    ensures err.Some? ==> destroyed == Some(Failure(DivisionByZero))
    ensures err == None ==>
      && destroyed == None && Opened(side, messageSize, segS2C, segC2S, messages, iterations)
      && bench.Valid() && bench.durations == [] && bench.totalMessages == 0 && bench.messageSize == messageSize
  {
    var proc := new Process();
    signals := new SignalManager(Server, proc);
    bench := new Benchmarks("shm", messageSize);
    var channelErr;
    side, channelErr := OpenChannels(messageSize, calls, segS2C, segC2S);
    messages, destroyed := [], None;
    if channelErr.Some? {
      err := Some(ChannelFailed(channelErr.value));
    } else if !calls.allocOk {
      // `reserve` or `push_back` throws.
      err := Some(AllocFailed);
    } else {
      err := None;
      messages := MakeMessages(iterations, messageSize);
      var notified := signals.PollWait();
      assert !notified;
      return;
    }
    var r := bench.Destroy();
    destroyed := Some(r);
  }

  /** The server leaves its wait, both sides play every round, and the
      server's `Benchmarks` is destroyed and runs its report as written. */
  method Measure(iterations: nat, messageSize: nat, serverSignals: SignalManager,
                 serverMessages: seq<string>, clientMessages: seq<string>, server: Side, client: Side,
                 segS2C: array<char>, segC2S: array<char>, bench: Benchmarks, ticks: seq<Tick>)
    returns (report: Result<Figures, Fault>)
    requires serverSignals.target == Server && WaitReady(Server, serverSignals.process.flags)
    requires IsPow2(messageSize) && (iterations == 0 || Fits(iterations - 1, messageSize))
    requires Opened(server, messageSize, segS2C, segC2S, serverMessages, iterations)
    requires Opened(client, messageSize, segS2C, segC2S, clientMessages, iterations)
    requires segS2C[..] == Zeros(messageSize * SHM_NUM_MSG) && segC2S[..] == Zeros(messageSize * SHM_NUM_MSG)
    requires Separate(server, client, segS2C, segC2S)
    requires bench.Valid() && bench.durations == [] && bench.totalMessages == 0 && bench.messageSize == messageSize
    requires |ticks| == iterations && Monotone(ticks)
    modifies serverSignals.process`flags
    modifies server.s2c`writeOffset, server.s2c`written, client.s2c`readOffset, client.s2c`consumed
    modifies client.c2s`writeOffset, client.c2s`written, server.c2s`readOffset, server.c2s`consumed
    modifies segS2C, segC2S, bench`startNs, bench`durations, bench`totalDurationNs, bench`totalMessages
    modifies bench`niterations
    ensures report == ReportAsWritten(Sum(Durations(ticks)), iterations, iterations, messageSize)
  {
    var notified := serverSignals.PollWait();
    assert notified;
    assert InLockstep(0, messageSize, server, client, segS2C, segC2S);
    // Both sides built the same messages.
    assert serverMessages == clientMessages;
    Rounds(iterations, messageSize, serverMessages, server, client, segS2C, segC2S, bench, ticks);
    report := bench.Destroy();
  }

  /** The client's `main` up to its `notify`: both rings, then (once they are
      mapped) its handlers and the message table, stopping at the first
      exception. */
  method StartClient(messageSize: nat, iterations: nat, calls: SetupCalls,
                     segS2C: array<char>, segC2S: array<char>)
    returns (signals: SignalManager?, side: Side, err: Option<SetupFailure>, messages: seq<string>)
    requires 0 < messageSize && 0 < iterations && Fits(iterations - 1, messageSize)
    requires segS2C.Length == messageSize * SHM_NUM_MSG && segC2S.Length == messageSize * SHM_NUM_MSG
    ensures fresh(side.s2c) && fresh(side.c2s) && side.s2c != side.c2s
    ensures err == SetupError(calls)
    ensures err == None ==>
      && signals != null && fresh(signals.process)
      && signals.target == Client && signals.process.Installed(Client) && !signals.process.terminated
      && Opened(side, messageSize, segS2C, segC2S, messages, iterations)
  {
    var channelErr;
    side, channelErr := OpenChannels(messageSize, calls, segS2C, segC2S);
    signals, messages := null, [];
    if channelErr.Some? {
      return null, side, Some(ChannelFailed(channelErr.value)), [];
    }
    var proc := new Process();
    signals := new SignalManager(Client, proc);
    if !calls.allocOk {
      // `reserve` or `push_back` throws.
      return signals, side, Some(AllocFailed), [];
    }
    err := None;
    messages := MakeMessages(iterations, messageSize);
  }

  /** A zero-filled array of `n` characters, as `ftruncate` leaves a new object. */
  method ZeroSegment(n: nat) returns (a: array<char>)
    ensures fresh(a) && a[..] == Zeros(n)
  {
    a := new char[n](_ => NUL);
    assert a[..] == Zeros(n);
  }

  /** The launcher's `SignalManager`: it ignores both user signals. */
  method StartLauncher() returns (launcher: Process)
    ensures fresh(launcher) && launcher.Installed(Launcher) && !launcher.terminated
  {
    launcher := new Process();
    var signals := new SignalManager(Launcher, launcher);
  }

  /** The client's whole `main`, started once the server is waiting (or has
      already failed, when `serverOk` is false, with the report its destroyed
      `Benchmarks` ran given as `serverEnd`), and the server's rounds. */
  method RunClient(messageSize: nat, iterations: nat, clientCalls: SetupCalls, ticks: seq<Tick>,
                   launcher: Process, serverSignals: SignalManager, bench: Benchmarks, server: Side,
                   serverOk: bool, serverMessages: seq<string>, serverEnd: Option<Result<Figures, Fault>>,
                   segS2C: array<char>, segC2S: array<char>)
    returns (outcome: Outcome)
    requires 0 < messageSize && 0 < iterations
    requires IsPow2(messageSize) && Fits(iterations - 1, messageSize)
    requires clientCalls.sizeQuery.None? && |ticks| == iterations && Monotone(ticks)
    requires segS2C.Length == messageSize * SHM_NUM_MSG && segC2S.Length == messageSize * SHM_NUM_MSG
    requires segS2C != segC2S && server.s2c != server.c2s
    requires segS2C[..] == Zeros(messageSize * SHM_NUM_MSG) && segC2S[..] == Zeros(messageSize * SHM_NUM_MSG)
    requires launcher.Installed(Launcher) && !launcher.terminated
    requires serverSignals.target == Server && serverSignals.process.Installed(Server)
    requires !serverSignals.process.terminated && serverSignals.process.flags == InitialFlags
    requires serverOk ==>
      && Opened(server, messageSize, segS2C, segC2S, serverMessages, iterations)
      && bench.Valid() && bench.durations == [] && bench.totalMessages == 0 && bench.messageSize == messageSize
    requires !serverOk ==> serverEnd.Some?
    modifies launcher`flags, launcher`terminated, serverSignals.process`flags, serverSignals.process`terminated
    modifies server.s2c`writeOffset, server.s2c`written, server.c2s`readOffset, server.c2s`consumed
    modifies segS2C, segC2S, bench`startNs, bench`durations, bench`totalDurationNs, bench`totalMessages
    modifies bench`niterations
    ensures outcome.launcherAlive && outcome.server != Killed && outcome.client != Killed
    ensures serverOk && SetupError(clientCalls) == None ==>
      var r := ReportAsWritten(Sum(Durations(ticks)), iterations, iterations, messageSize);
      outcome == Outcome(EndAfterReport(r, 0), Returned(0), true, Printed(r))
    ensures !serverOk ==>
      outcome == Outcome(EndAfterReport(serverEnd.value, 1),
                         if SetupError(clientCalls).Some? then Returned(1) else Spins,
                         true, Printed(serverEnd.value))
    ensures serverOk && SetupError(clientCalls).Some? ==> outcome == Outcome(Spins, Returned(1), true, None)
  {
    var clientSignals, client, clientErr, clientMessages :=
      StartClient(messageSize, iterations, clientCalls, segS2C, segC2S);
    if clientErr.Some? {
      if serverOk {
        // Without a notification the server never leaves its wait.
        return Outcome(Spins, Returned(1), !launcher.terminated, None);
      }
      return Outcome(EndAfterReport(serverEnd.value, 1), Returned(1), !launcher.terminated, Printed(serverEnd.value));
    }
    NotifyGroup(clientSignals, launcher, serverSignals.process, serverOk);
    if !serverOk {
      // Nobody writes to the server-to-client ring: the client's poll keeps failing.
      var seen := Poll(0, 0, messageSize, clientMessages[0], client.s2c, segS2C);
      return Outcome(EndAfterReport(serverEnd.value, 1), Spins, !launcher.terminated, Printed(serverEnd.value));
    }
    var report := Measure(iterations, messageSize, serverSignals, serverMessages, clientMessages,
                          server, client, segS2C, segC2S, bench, ticks);
    var serverExit := if serverSignals.process.terminated then Killed else EndAfterReport(report, 0);
    outcome := Outcome(serverExit, ExitOf(clientSignals.process, 0), !launcher.terminated, Printed(report));
  }

  /** The launcher, then the server up to its wait, then the client, then the
      rounds. `messageSize` and `iterations` are what `parse_args` accepted;
      the kernel's and the allocator's answers to each side's setup and the
      server's clock readings are parameters. */
  method Run(messageSize: nat, iterations: nat, serverCalls: SetupCalls, clientCalls: SetupCalls,
             ticks: seq<Tick>)
    returns (outcome: Outcome)
    requires 0 < messageSize && 0 < iterations
    requires IsPow2(messageSize) && Fits(iterations - 1, messageSize)
    requires serverCalls.sizeQuery.Some? && clientCalls.sizeQuery.None?
    requires |ticks| == iterations && Monotone(ticks)
    ensures outcome.launcherAlive && outcome.server != Killed && outcome.client != Killed
    ensures SetupError(serverCalls) == None && SetupError(clientCalls) == None ==>
      var r := ReportAsWritten(Sum(Durations(ticks)), iterations, iterations, messageSize);
      outcome == Outcome(EndAfterReport(r, 0), Returned(0), true, Printed(r))
    ensures SetupError(serverCalls) == None && SetupError(clientCalls) == None
            && 0 < Sum(Durations(ticks)) && RatesFit(iterations, messageSize) ==>
      outcome == Outcome(Returned(0), Returned(0), true,
                         Some(Report(Sum(Durations(ticks)), iterations, iterations, messageSize)))
    ensures SetupError(serverCalls) == None && SetupError(clientCalls) == None && Sum(Durations(ticks)) == 0 ==>
      outcome.server == Crashed && outcome.report == None
    ensures SetupError(serverCalls).Some? ==>
      && outcome.server == Crashed && outcome.report == None
      && outcome.client == (if SetupError(clientCalls).Some? then Returned(1) else Spins)
    ensures SetupError(serverCalls) == None && SetupError(clientCalls).Some? ==>
      outcome == Outcome(Spins, Returned(1), true, None)
  {
    var launcher := StartLauncher();
    var segS2C := ZeroSegment(messageSize * SHM_NUM_MSG);
    var segC2S := ZeroSegment(messageSize * SHM_NUM_MSG);
    var serverSignals, bench, server, serverErr, serverMessages, destroyed :=
      StartServer(messageSize, iterations, serverCalls, segS2C, segC2S);
    outcome := RunClient(messageSize, iterations, clientCalls, ticks, launcher, serverSignals, bench, server,
                         serverErr.None?, serverMessages, destroyed, segS2C, segC2S);
    FinalReport(Sum(Durations(ticks)), iterations, messageSize);
  }

  /** `parse_args` accepts one-byte messages and eleven iterations, although
      the number of the last iteration has two digits. */
  lemma OverlongIterationsAccepted(maxMessageSize: nat)
    requires 0 < maxMessageSize
    ensures ParseArgsSpec([Opt('m', "1"), Opt('i', "11")], maxMessageSize) == Success(Args(1, 11))
    ensures !Fits(10, 1)
  {
    assert Digits(1) == "1" && Digits(11) == "11" && Digits(10) == "10";
    StrToNatOfDigits(1);
    StrToNatOfDigits(11);
    TwoOptions("1", "11");
  }
}
