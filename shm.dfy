/**
 * The shared-memory ring channel (`ShmManager`): a segment of
 * `message_size × SHM_NUM_MSG` bytes mapped by both peers, with a
 * process-local write cursor and read cursor advanced by a bitmask.
 */
module Shm {
  import opened Bits
  import opened Wrappers

  /** Names of the two shared-memory objects. */
  const SHM_NAME_S2C: string := "/koi_shm_bench_s2c_v8"
  const SHM_NAME_C2S: string := "/koi_shm_bench_c2s_v8"

  /** The ring holds at most `1 << 12` messages. */
  const SHM_NUM_MSG: nat := 4096

  lemma NumMsgIsPow2()
    ensures IsPow2(SHM_NUM_MSG)
  {
    assert IsPow2(1) && IsPow2(2) && IsPow2(4) && IsPow2(8) && IsPow2(16) && IsPow2(32);
    assert IsPow2(64) && IsPow2(128) && IsPow2(256) && IsPow2(512) && IsPow2(1024);
    assert IsPow2(2048) && IsPow2(4096);
  }

  // ---------------------------------------------------------------------------
  // Slot arithmetic

  /** Byte offset of the slot that the `n`-th message (counting from 0) occupies
      when cursors wrap modulo the segment size. */
  function SlotOffset(n: nat, messageSize: nat): nat
  {
    (n % SHM_NUM_MSG) * messageSize
  }

  lemma MulLeMono(a: nat, b: nat, c: nat)
    requires a <= b
    ensures a * c <= b * c
  {
    assert b * c == a * c + (b - a) * c;
  }

  /** Every slot lies wholly inside the segment. */
  lemma SlotInBounds(n: nat, messageSize: nat)
    ensures SlotOffset(n, messageSize) + messageSize <= messageSize * SHM_NUM_MSG
  {
    var r := n % SHM_NUM_MSG;
    MulLeMono(r + 1, SHM_NUM_MSG, messageSize);
    assert (r + 1) * messageSize == r * messageSize + messageSize;
  }

  /** The slot offset is the count of bytes written, reduced modulo the segment size. */
  lemma SlotOffsetIsBytesMod(n: nat, messageSize: nat)
    requires 0 < messageSize
    ensures SlotOffset(n, messageSize) == (n * messageSize) % (messageSize * SHM_NUM_MSG)
  {
    var q, r := n / SHM_NUM_MSG, n % SHM_NUM_MSG;
    var size := messageSize * SHM_NUM_MSG;
    assert n * messageSize == size * q + r * messageSize by {
      assert n == SHM_NUM_MSG * q + r;
      assert n * messageSize == (SHM_NUM_MSG * q) * messageSize + r * messageSize;
      assert (SHM_NUM_MSG * q) * messageSize == size * q;
    }
    SlotInBounds(n, messageSize);
    DivModUnique(n * messageSize, size, q, r * messageSize);
  }

  /** The ring position of message `n + 1` follows that of message `n`,
      wrapping to 0 after the last slot. */
  lemma PositionStep(n: nat)
    ensures (n + 1) % SHM_NUM_MSG
         == if n % SHM_NUM_MSG + 1 < SHM_NUM_MSG then n % SHM_NUM_MSG + 1 else 0
  {
    var q, r := n / SHM_NUM_MSG, n % SHM_NUM_MSG;
    assert n == SHM_NUM_MSG * q + r;
    if r + 1 < SHM_NUM_MSG {
      DivModUnique(n + 1, SHM_NUM_MSG, q, r + 1);
    } else {
      DivModUnique(n + 1, SHM_NUM_MSG, q + 1, 0);
    }
  }

  /** After `SHM_NUM_MSG` further messages the cursor is back where it was. */
  lemma SlotOffsetWraps(n: nat, messageSize: nat)
    ensures SlotOffset(n + SHM_NUM_MSG, messageSize) == SlotOffset(n, messageSize)
    ensures SlotOffset(SHM_NUM_MSG, messageSize) == 0
  {
    var q, r := n / SHM_NUM_MSG, n % SHM_NUM_MSG;
    assert n == SHM_NUM_MSG * q + r;
    DivModUnique(n + SHM_NUM_MSG, SHM_NUM_MSG, q + 1, r);
    DivModUnique(SHM_NUM_MSG, SHM_NUM_MSG, 1, 0);
  }

  /** Advancing by one message and reducing modulo the segment size moves from
      the slot of message `n` to the slot of message `n + 1`. */
  lemma SlotStepMod(n: nat, messageSize: nat)
    requires 0 < messageSize
    ensures (SlotOffset(n, messageSize) + messageSize) % (messageSize * SHM_NUM_MSG)
         == SlotOffset(n + 1, messageSize)
  {
    var size := messageSize * SHM_NUM_MSG;
    var r := n % SHM_NUM_MSG;
    var x := SlotOffset(n, messageSize) + messageSize;
    assert x == (r + 1) * messageSize by { assert (r + 1) * messageSize == r * messageSize + messageSize; }
    PositionStep(n);
    if r + 1 < SHM_NUM_MSG {
      assert SlotOffset(n + 1, messageSize) == x;
      SlotInBounds(n + 1, messageSize);
      DivModUnique(x, size, 0, x);
    } else {
      assert SlotOffset(n + 1, messageSize) == 0;
      assert x == size by { assert r + 1 == SHM_NUM_MSG; }
      DivModUnique(x, size, 1, 0);
    }
  }

  /** With a power-of-two message size, masking with the segment size less one
      reduces modulo the segment size. */
  lemma SegmentMask(x: nat, messageSize: nat, y: nat)
    requires IsPow2(messageSize) && 0 < messageSize && x % (messageSize * SHM_NUM_MSG) == y
    ensures BitAnd(x, messageSize * SHM_NUM_MSG - 1) == y
  {
    NumMsgIsPow2();
    IsPow2Mul(messageSize, SHM_NUM_MSG);
    MaskIsMod(x, messageSize * SHM_NUM_MSG);
  }

  /** With a power-of-two message size the masked advance of the source moves
      the cursor from the slot of message `n` to the slot of message `n + 1`. */
  lemma MaskedStep(n: nat, messageSize: nat)
    requires IsPow2(messageSize)
    ensures BitAnd(SlotOffset(n, messageSize) + messageSize, messageSize * SHM_NUM_MSG - 1)
         == SlotOffset(n + 1, messageSize)
  {
    SlotStepMod(n, messageSize);
    SegmentMask(SlotOffset(n, messageSize) + messageSize, messageSize, SlotOffset(n + 1, messageSize));
  }

  /** `s` with the bytes from `offset` on replaced by `m`. */
  function Splice(s: seq<char>, offset: nat, m: seq<char>): (r: seq<char>)
    requires offset + |m| <= |s|
    ensures |r| == |s|
    ensures r[offset..offset + |m|] == m
    ensures forall i :: 0 <= i < |s| && !(offset <= i < offset + |m|) ==> r[i] == s[i]
  {
    s[..offset] + m + s[offset + |m|..]
  }

  // ---------------------------------------------------------------------------
  // Mapping the segment

  /** `shm_ptr`: null before `init_shm`, `MAP_FAILED` after a failed `mmap`, or
      the mapped view of the shared segment. */
  datatype Ptr = Null | MapFailed | Mapped(segment: array<char>)

  datatype Errno = EINVAL | OtherErrno

  /** What the kernel answers to each call `init_shm` makes, in order. */
  datatype OsCalls = OsCalls(shmOpenOk: bool, ftruncate: Option<Errno>, fstatOk: bool, mmapOk: bool)

  /** The exception `init_shm` throws. */
  datatype InitError = ShmOpenFailed | FtruncateFailed | FstatFailed | MmapFailed

  /** Which exception, if any, the calls answered by `os` make `init_shm` throw.
      An `ftruncate` failing with `EINVAL` (segment already sized by the peer) is
      tolerated. */
  function InitOutcome(os: OsCalls): (r: Option<InitError>)
    ensures r == None <==> os.shmOpenOk && (os.ftruncate.None? || os.ftruncate == Some(EINVAL))
                           && os.fstatOk && os.mmapOk
    ensures r == Some(MmapFailed) <==> os.shmOpenOk && (os.ftruncate.None? || os.ftruncate == Some(EINVAL))
                                       && os.fstatOk && !os.mmapOk
  {
    if !os.shmOpenOk then Some(ShmOpenFailed)
    else if os.ftruncate.Some? && os.ftruncate.value != EINVAL then Some(FtruncateFailed)
    else if !os.fstatOk then Some(FstatFailed)
    else if !os.mmapOk then Some(MmapFailed)
    else None
  }

  // ---------------------------------------------------------------------------
  // The channel

  class ShmManager {
    const messageSize: nat
    const shmSize: nat
    const name: string
    var ptr: Ptr
    /** Process-local cursors: byte offsets into the segment, never stored in it. */
    var writeOffset: nat
    var readOffset: nat
    /** Messages written and consumed since the last successful `InitShm`. */
    ghost var written: nat
    ghost var consumed: nat

    ghost predicate Valid()
      reads this
    {
      && 0 < messageSize
      && shmSize == messageSize * SHM_NUM_MSG
      && writeOffset < shmSize
      && readOffset < shmSize
      && (ptr.Mapped? ==> ptr.segment.Length == shmSize)
      && (IsPow2(messageSize) ==>
            writeOffset == SlotOffset(written, messageSize) && readOffset == SlotOffset(consumed, messageSize))
    }

    /** Nothing mapped yet; both cursors at 0. */
    constructor (messageSize: nat, name: string)
      requires 0 < messageSize
      ensures Valid()
      ensures this.messageSize == messageSize && this.name == name
      ensures shmSize == messageSize * SHM_NUM_MSG
      ensures ptr == Null && writeOffset == 0 && readOffset == 0
      ensures written == 0 && consumed == 0
    {
      this.messageSize := messageSize;
      this.name := name;
      shmSize := messageSize * SHM_NUM_MSG;
      ptr := Null;
      writeOffset, readOffset := 0, 0;
      written, consumed := 0, 0;
    }

    /** Opens, sizes and maps the named segment, whose mapped view the kernel
        gives as `segment`; resets both cursors only once the map succeeded. */
    method InitShm(os: OsCalls, segment: array<char>) returns (err: Option<InitError>)
      requires Valid()
      requires segment.Length == shmSize
      modifies this`ptr, this`writeOffset, this`readOffset, this`written, this`consumed
      ensures Valid()
      ensures err == InitOutcome(os)
      ensures err == None ==>
        ptr == Mapped(segment) && writeOffset == 0 && readOffset == 0 && written == 0 && consumed == 0
      ensures err == Some(MmapFailed) ==>
        ptr == MapFailed && unchanged(this`writeOffset, this`readOffset, this`written, this`consumed)
      ensures err.Some? && err != Some(MmapFailed) ==> unchanged(this)
    {
      err := InitOutcome(os);
      if err == None {
        ptr := Mapped(segment);
        writeOffset, readOffset := 0, 0;
        written, consumed := 0, 0;
      } else if err == Some(MmapFailed) {
        ptr := MapFailed;
      }
    }

    /** Size of the segment as `fstat` reports it; `shm_open` or `fstat` may fail. */
    method GetShmSize(shmOpenOk: bool, fstatOk: bool) returns (r: Result<nat, InitError>)
      requires Valid() && ptr.Mapped?
      ensures r.Success? <==> shmOpenOk && fstatOk
      ensures !shmOpenOk ==> r == Failure(ShmOpenFailed)
      ensures shmOpenOk && !fstatOk ==> r == Failure(FstatFailed)
      ensures r.Success? ==> r.value == shmSize && r.value == messageSize * SHM_NUM_MSG
    {
      if !shmOpenOk {
        return Failure(ShmOpenFailed);
      }
      if !fstatOk {
        return Failure(FstatFailed);
      }
      r := Success(ptr.segment.Length);
    }

    /** Copies `message` into the slot at the write cursor and advances the
        cursor by `message_size`, masked with `shm_size - 1`. Unchecked: the
        caller guarantees the message fits at the current position. */
    method WriteShm(message: seq<char>)
      requires Valid() && ptr.Mapped?
      requires |message| == messageSize
      requires writeOffset + messageSize <= shmSize
      modifies this`writeOffset, this`written, ptr.segment
      ensures Valid()
      ensures ptr.segment[..] == Splice(old(ptr.segment[..]), old(writeOffset), message)
      ensures writeOffset == BitAnd(old(writeOffset) + messageSize, shmSize - 1)
      ensures written == old(written) + 1
    {
      var seg, off := ptr.segment, writeOffset;
      for j := 0 to |message|
        modifies seg
        invariant forall k :: 0 <= k < seg.Length ==>
          seg[k] == (if off <= k < off + j then message[k - off] else old(seg[k]))
      {
        seg[off + j] := message[j];
      }
      assert seg[..] == Splice(old(seg[..]), off, message);
      writeOffset := BitAnd(off + messageSize, shmSize - 1);
      written := written + 1;
      if IsPow2(messageSize) {
        MaskedStep(old(written), messageSize);
      }
    }

    /** Compares the `message_size` bytes at the read cursor with `target`; on a
        match advances the cursor like `WriteShm`, otherwise changes nothing. */
    method ReadShmUntil(target: seq<char>) returns (matched: bool)
      requires Valid() && ptr.Mapped?
      requires readOffset + messageSize <= shmSize
      modifies this`readOffset, this`consumed
      ensures Valid()
      ensures matched <==> ptr.segment[old(readOffset)..old(readOffset) + messageSize] == target
      ensures matched ==>
        readOffset == BitAnd(old(readOffset) + messageSize, shmSize - 1) && consumed == old(consumed) + 1
      ensures !matched ==> readOffset == old(readOffset) && consumed == old(consumed)
    {
      var message := ptr.segment[readOffset..readOffset + messageSize];
      matched := message == target;
      if matched {
        readOffset := BitAnd(readOffset + messageSize, shmSize - 1);
        consumed := consumed + 1;
        if IsPow2(messageSize) {
          MaskedStep(old(consumed), messageSize);
        }
      }
    }

    /** The bytes from the start of the segment up to the write cursor. */
    method ReadAllShm() returns (s: seq<char>)
      requires Valid() && ptr.Mapped?
      ensures |s| == writeOffset
      ensures s == ptr.segment[..writeOffset]
      ensures IsPow2(messageSize) ==> |s| == (written * messageSize) % shmSize
    {
      s := ptr.segment[..writeOffset];
      SlotOffsetIsBytesMod(written, messageSize);
    }

    /** The write cursor: the bytes written so far, modulo the segment size,
        whenever the message size is a power of two. */
    method GetWriteOffset() returns (n: nat)
      requires Valid()
      ensures n == writeOffset && n < shmSize
      ensures IsPow2(messageSize) ==> n == (written * messageSize) % shmSize
    {
      n := writeOffset;
      SlotOffsetIsBytesMod(written, messageSize);
    }

    /** With a power-of-two message size both cursors always leave room for a
        whole message, so every `WriteShm` and `ReadShmUntil` stays in bounds. */
    lemma RoomAtCursors()
      requires Valid() && IsPow2(messageSize)
      ensures writeOffset + messageSize <= shmSize
      ensures readOffset + messageSize <= shmSize
    {
      SlotInBounds(written, messageSize);
      SlotInBounds(consumed, messageSize);
    }
  }
}
