/**
 * `MsgbufRAII`: a System V message buffer of `size` payload bytes plus an
 * `mtype`, filled with '1' on construction and overwritten by a bounded
 * `strncpy`.
 */
module MessageBuffer {
  import opened Wrappers

  /** Length of the C string held in `s`: the index of its first NUL, or the
      whole of `s` when it holds none. */
  function CLen(s: seq<char>): (n: nat)
    ensures n <= |s|
    ensures forall k :: 0 <= k < n ==> s[k] != NUL
    ensures n < |s| ==> s[n] == NUL
    decreases |s|
  {
    if s == [] || s[0] == NUL then 0 else 1 + CLen(s[1..])
  }

  /** The `n` bytes `strncpy(dest, src, n)` leaves in `dest` (section 7.24.2.4
      of ISO C11): characters of `src` up to its terminating NUL, then NULs up
      to `n`. */
  function StrNCpy(src: seq<char>, n: nat): (r: seq<char>)
    ensures |r| == n
    ensures forall k :: 0 <= k < n ==> r[k] == if k < CLen(src) then src[k] else NUL
    decreases n
  {
    if n == 0 then []
    else if src == [] || src[0] == NUL then seq(n, _ => NUL)
    else [src[0]] + StrNCpy(src[1..], n - 1)
  }

  /** Data of exactly `n` non-NUL bytes is copied verbatim; a shorter string
      is copied and NUL-terminated; a longer one is cut to `n` bytes with no
      terminator. */
  lemma StrNCpyCases(s: seq<char>, n: nat)
    requires NUL !in s
    ensures |s| >= n ==> StrNCpy(s, n) == s[..n]
    ensures |s| < n ==> StrNCpy(s, n)[..|s|] == s && CLen(StrNCpy(s, n)) == |s|
  {
    assert CLen(s) == |s|;
  }

  datatype AllocError = BadAlloc

  class MsgbufRAII {
    const size: nat
    var mtype: int
    const buffer: array<char>

    ghost predicate Valid()
      reads this
    {
      buffer.Length == size
    }

    /** A buffer of `messageSize` payload bytes, all '1'. */
    constructor (messageSize: nat, mtype: int)
      ensures Valid() && fresh(buffer)
      ensures size == messageSize && this.mtype == mtype
      ensures forall k :: 0 <= k < size ==> buffer[k] == '1'
    {
      size := messageSize;
      this.mtype := mtype;
      buffer := new char[messageSize](_ => '1');
    }

    /** The constructor including its `malloc`, which may fail with `bad_alloc`. */
    static method New(messageSize: nat, mtype: int, mallocOk: bool) returns (r: Result<MsgbufRAII, AllocError>)
      ensures r.Failure? <==> !mallocOk
      ensures r.Success? ==>
        && fresh(r.value) && fresh(r.value.buffer) && r.value.Valid()
        && r.value.size == messageSize && r.value.mtype == mtype
        && forall k :: 0 <= k < messageSize ==> r.value.buffer[k] == '1'
    {
      if !mallocOk {
        return Failure(BadAlloc);
      }
      var b := new MsgbufRAII(messageSize, mtype);
      r := Success(b);
    }

    /** The payload size given at construction. */
    method GetLen() returns (n: nat)
      requires Valid()
      ensures n == size && n == buffer.Length
    {
      n := size;
    }

    /** `strncpy(buffer, data, size)`: at most `size` bytes, `mtype` untouched. */
    method SetData(data: seq<char>)
      requires Valid()
      modifies buffer
      ensures buffer[..] == StrNCpy(data, size)
    {
      var copied := StrNCpy(data, size);
      forall k | 0 <= k < buffer.Length {
        buffer[k] := copied[k];
      }
    }
  }
}
