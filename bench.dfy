/**
 * The benchmark accumulator (`Benchmarks`): per-iteration durations, running
 * totals, and the integer figures `report` prints. Clock readings are passed
 * in as parameters.
 */
module Bench {
  import opened Wrappers

  const NS_PER_SEC: nat := 1_000_000_000

  /** `unsigned long long` arithmetic wraps modulo 2^64. */
  const ULL_MODULUS: nat := 0x1_0000_0000_0000_0000

  function Wrap(x: nat): (r: nat)
    ensures r < ULL_MODULUS
    ensures x < ULL_MODULUS ==> r == x
  {
    x % ULL_MODULUS
  }

  /** Product of two `unsigned long long` values. */
  function MulU64(a: nat, b: nat): (r: nat)
    ensures r < ULL_MODULUS
    ensures a * b < ULL_MODULUS ==> r == a * b
  {
    Wrap(a * b)
  }

  function Sum(s: seq<nat>): nat
  {
    if s == [] then 0 else Sum(s[..|s| - 1]) + s[|s| - 1]
  }

  /** The figures `report` prints after its banner: iterations, total seconds,
      nanoseconds per iteration, messages, messages per second and bytes per
      second. A rate is `None` where its divisor is 0. */
  datatype Figures = Figures(
    iterations: nat,
    totalSeconds: nat,
    perIterationNs: Option<nat>,
    totalMessages: nat,
    messagesPerSec: Option<nat>,
    bytesPerSec: Option<nat>)

  datatype Fault = DivisionByZero

  /** `floor(x / d)`, characterised by its bounds. */
  predicate IsQuotient(q: nat, x: nat, d: nat)
  {
    q * d <= x < (q + 1) * d
  }

  /** Unsigned integer division. */
  function Quot(x: nat, d: nat): (q: nat)
    requires d > 0
    ensures IsQuotient(q, x, d)
  {
    var q := x / d;
    assert x == q * d + x % d;
    assert (q + 1) * d == q * d + d;
    q
  }

  /** `report` as written: divides by `niterations` and by `total_duration_ns`
      unchecked, and forms both rates from 64-bit products that wrap. */
  function ReportAsWritten(totalDurationNs: nat, niterations: nat, totalMessages: nat, messageSize: nat)
    : (r: Result<Figures, Fault>)
    ensures r.Failure? <==> niterations == 0 || totalDurationNs == 0
  {
    if niterations == 0 || totalDurationNs == 0 then Failure(DivisionByZero)
    else
      Success(Figures(
        niterations,
        Quot(totalDurationNs, NS_PER_SEC),
        Some(Quot(totalDurationNs, niterations)),
        totalMessages,
        Some(Quot(MulU64(totalMessages, NS_PER_SEC), totalDurationNs)),
        Some(Quot(MulU64(MulU64(totalMessages, messageSize), NS_PER_SEC), totalDurationNs))))
  }

  /** `report` with each figure guarded by its divisor and computed without
      wrap-around. */
  function Report(totalDurationNs: nat, niterations: nat, totalMessages: nat, messageSize: nat)
    : (r: Figures)
    ensures r.iterations == niterations && r.totalMessages == totalMessages
    ensures IsQuotient(r.totalSeconds, totalDurationNs, NS_PER_SEC)
    ensures r.perIterationNs.Some? <==> niterations > 0
    ensures r.perIterationNs.Some? ==> IsQuotient(r.perIterationNs.value, totalDurationNs, niterations)
    ensures r.messagesPerSec.Some? <==> totalDurationNs > 0
    ensures r.bytesPerSec.Some? <==> totalDurationNs > 0
    ensures r.messagesPerSec.Some? ==>
      IsQuotient(r.messagesPerSec.value, totalMessages * NS_PER_SEC, totalDurationNs)
    ensures r.bytesPerSec.Some? ==>
      IsQuotient(r.bytesPerSec.value, totalMessages * messageSize * NS_PER_SEC, totalDurationNs)
  {
    Figures(
      niterations,
      Quot(totalDurationNs, NS_PER_SEC),
      if niterations > 0 then Some(Quot(totalDurationNs, niterations)) else None,
      totalMessages,
      if totalDurationNs > 0 then Some(Quot(totalMessages * NS_PER_SEC, totalDurationNs)) else None,
      if totalDurationNs > 0 then Some(Quot(totalMessages * messageSize * NS_PER_SEC, totalDurationNs)) else None)
  }

  /** Neither rate's 64-bit product wraps. */
  predicate RatesFit(totalMessages: nat, messageSize: nat)
  {
    totalMessages * messageSize * NS_PER_SEC < ULL_MODULUS && totalMessages * NS_PER_SEC < ULL_MODULUS
  }

  /** Where nothing wraps and no divisor is 0, the guarded report agrees with
      the report as written. */
  lemma ReportAgreesWhenDefined(totalDurationNs: nat, niterations: nat, totalMessages: nat, messageSize: nat)
    requires niterations > 0 && totalDurationNs > 0
    requires RatesFit(totalMessages, messageSize)
    ensures ReportAsWritten(totalDurationNs, niterations, totalMessages, messageSize)
         == Success(Report(totalDurationNs, niterations, totalMessages, messageSize))
  {
    assert totalMessages * messageSize <= totalMessages * messageSize * NS_PER_SEC;
  }

  /** With no completed iteration the report as written divides by zero. */
  lemma ReportWithoutIterationsFaults(totalMessages: nat, messageSize: nat)
    ensures ReportAsWritten(0, 0, totalMessages, messageSize) == Failure(DivisionByZero)
    ensures Report(0, 0, totalMessages, messageSize).perIterationNs == None
  {
  }

  /** 10^7 iterations of 4096-byte messages in 10 s: the bytes-per-second
      product 4.096 × 10^19 exceeds 2^64, and the report as written prints
      406651185 instead of 4096000000. */
  lemma BytesPerSecWraps()
    ensures ReportAsWritten(10_000_000_000, 10_000_000, 10_000_000, 4096).value.bytesPerSec
         == Some(406651185)
    ensures Report(10_000_000_000, 10_000_000, 10_000_000, 4096).bytesPerSec == Some(4096000000)
  {
  }

  class Benchmarks {
    const name: string
    const messageSize: nat
    /** Start of the most recent iteration (ns). */
    var startNs: nat
    var durations: seq<nat>
    var totalDurationNs: nat
    var totalMessages: nat
    var niterations: nat

    ghost predicate Valid()
      reads this
    {
      niterations == |durations| && totalDurationNs == Sum(durations)
    }

    constructor (name: string, messageSize: nat)
      ensures Valid()
      ensures this.name == name && this.messageSize == messageSize
      ensures startNs == 0 && durations == [] && totalDurationNs == 0
      ensures totalMessages == 0 && niterations == 0
    {
      this.name := name;
      this.messageSize := messageSize;
      startNs, durations, totalDurationNs, totalMessages, niterations := 0, [], 0, 0, 0;
    }

    /** Records `now` as the start of a new iteration. */
    method StartIteration(now: nat) returns (status: int)
      modifies this`startNs
      ensures startNs == now && status == 0
    {
      startNs := now;
      return 0;
    }

    /** Closes the iteration begun by the last `StartIteration`: a clock that
        went backwards is refused with -1; otherwise the duration is recorded. */
    method EndIteration(numMessages: nat, now: nat) returns (status: int)
      requires Valid()
      modifies this`durations, this`totalDurationNs, this`totalMessages, this`niterations
      ensures Valid()
      ensures now < startNs ==> status == -1 && unchanged(this)
      ensures now >= startNs ==>
        && status == 0
        && durations == old(durations) + [now - startNs]
        && totalMessages == old(totalMessages) + numMessages
        && niterations == old(niterations) + 1
    {
      if now < startNs {
        return -1;
      }
      var durationNs := now - startNs;
      assert (durations + [durationNs])[..|durations|] == durations;
      durations := durations + [durationNs];
      totalDurationNs := totalDurationNs + durationNs;
      totalMessages := totalMessages + numMessages;
      niterations := niterations + 1;
      return 0;
    }

    /** The destructor: always runs `report` as written, even when no
        iteration completed, and then it divides by zero. */
    method Destroy() returns (r: Result<Figures, Fault>)
      requires Valid()
      ensures r == ReportAsWritten(totalDurationNs, niterations, totalMessages, messageSize)
      ensures |durations| == 0 ==> r == Failure(DivisionByZero)
      ensures r.Success? ==> r.value.iterations == |durations|
      ensures |durations| > 0 && totalDurationNs > 0 && RatesFit(totalMessages, messageSize) ==>
        r == Success(Report(totalDurationNs, niterations, totalMessages, messageSize))
    {
      r := ReportAsWritten(totalDurationNs, niterations, totalMessages, messageSize);
      if |durations| > 0 && totalDurationNs > 0 && RatesFit(totalMessages, messageSize) {
        ReportAgreesWhenDefined(totalDurationNs, niterations, totalMessages, messageSize);
      }
    }
  }
}
