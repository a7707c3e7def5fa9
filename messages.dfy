/**
 * The payloads both peers precompute before the ping-pong loop:
 * `messages[i]` is the decimal form of `i` copied over a string of
 * `message_size` dots.
 */
module Messages {

  predicate IsDigit(c: char) {
    '0' <= c <= '9'
  }

  predicate AllDigits(s: string) {
    forall k :: 0 <= k < |s| ==> IsDigit(s[k])
  }

  function DigitChar(d: nat): (c: char)
    requires d < 10
    ensures IsDigit(c)
  {
    ('0' as int + d) as char
  }

  function DigitValue(c: char): (d: nat)
    requires IsDigit(c)
    ensures d < 10
  {
    c as int - '0' as int
  }

  /** `std::to_string(n)`: the decimal digits of `n`, most significant first,
      with no leading zero. */
  function Digits(n: nat): (s: string)
    ensures 1 <= |s| && AllDigits(s)
    ensures s[0] == '0' ==> n == 0
    decreases n
  {
    if n < 10 then [DigitChar(n)] else Digits(n / 10) + [DigitChar(n % 10)]
  }

  /** The number a string of decimal digits denotes. */
  function Value(s: string): nat
    requires AllDigits(s)
    decreases |s|
  {
    if s == [] then 0 else Value(s[..|s| - 1]) * 10 + DigitValue(s[|s| - 1])
  }

  /** Reading the digits back gives the number: `to_string` loses nothing. */
  lemma {:induction false} ValueOfDigits(n: nat)
    ensures Value(Digits(n)) == n
    decreases n
  {
    if n >= 10 {
      ValueOfDigits(n / 10);
      var d := Digits(n);
      assert d[..|d| - 1] == Digits(n / 10);
    }
  }

  lemma DigitsInjective(i: nat, j: nat)
    requires Digits(i) == Digits(j)
    ensures i == j
  {
    ValueOfDigits(i);
    ValueOfDigits(j);
  }

  /** Larger numbers never have fewer digits. */
  lemma {:induction false} DigitsMonotone(i: nat, j: nat)
    requires i <= j
    ensures |Digits(i)| <= |Digits(j)|
    decreases j
  {
    if i >= 10 {
      DigitsMonotone(i / 10, j / 10);
    }
  }

  /** A string of `n` dots, the filler of `std::string(message_size, '.')`. */
  function Dots(n: nat): (s: string)
    ensures |s| == n && forall k :: 0 <= k < n ==> s[k] == '.'
  {
    seq(n, _ => '.')
  }

  /** The longest prefix of `s` made of decimal digits. */
  function DigitPrefix(s: string): (p: string)
    ensures AllDigits(p) && p <= s
    decreases |s|
  {
    if s == [] || !IsDigit(s[0]) then [] else [s[0]] + DigitPrefix(s[1..])
  }

  lemma {:induction false} DigitPrefixOfAppend(d: string, t: string)
    requires AllDigits(d)
    requires t == [] || !IsDigit(t[0])
    ensures DigitPrefix(d + t) == d
    decreases |d|
  {
    if d != [] {
      assert (d + t)[1..] == d[1..] + t;
      DigitPrefixOfAppend(d[1..], t);
    }
  }

  /** `messages[i]` for the given message size. Defined only when the digits of
      `i` fit: otherwise `std::copy` writes past the end of the string. */
  function Message(i: nat, messageSize: nat): string
    requires |Digits(i)| <= messageSize
  {
    Digits(i) + Dots(messageSize - |Digits(i)|)
  }

  /** The number a message carries: the value of its leading digits. */
  function MessageNumber(m: string): nat
  {
    Value(DigitPrefix(m))
  }

  /** Each message has the slot length, starts with a digit, and carries its
      own iteration number. */
  lemma MessageRoundTrip(i: nat, messageSize: nat)
    requires |Digits(i)| <= messageSize
    ensures |Message(i, messageSize)| == messageSize
    ensures IsDigit(Message(i, messageSize)[0])
    ensures MessageNumber(Message(i, messageSize)) == i
  {
    var t := Dots(messageSize - |Digits(i)|);
    DigitPrefixOfAppend(Digits(i), t);
    ValueOfDigits(i);
  }

  /** Distinct iterations give distinct payloads, which is what lets a reader
      tell a fresh message from a stale one by content alone. */
  lemma MessagesDistinct(i: nat, j: nat, messageSize: nat)
    requires |Digits(i)| <= messageSize && |Digits(j)| <= messageSize
    requires i != j
    ensures Message(i, messageSize) != Message(j, messageSize)
  {
    MessageRoundTrip(i, messageSize);
    MessageRoundTrip(j, messageSize);
  }

  /** What the precompute loop leaves in `messages[i]` as written: the string
      keeps `messageSize` bytes, so digits beyond it do not become part of the
      payload (they land past the end of the string, see `OverrunAsWritten`). */
  function PayloadAsWritten(i: nat, messageSize: nat): (m: string)
    ensures |m| == messageSize
    ensures |Digits(i)| <= messageSize ==> m == Message(i, messageSize)
    ensures |Digits(i)| > messageSize ==> m < Digits(i)
  {
    if |Digits(i)| <= messageSize then Message(i, messageSize) else Digits(i)[..messageSize]
  }

  /** Number of bytes `std::copy` writes past the end of the message string. */
  function OverrunAsWritten(i: nat, messageSize: nat): (n: nat)
    ensures n > 0 <==> |Digits(i)| > messageSize
  {
    if |Digits(i)| > messageSize then |Digits(i)| - messageSize else 0
  }

  /** With one-byte messages the eleventh iteration overruns its string by one
      byte and its payload is indistinguishable from that of iteration 1. */
  lemma OverlongPayloadsCollide()
    ensures OverrunAsWritten(10, 1) == 1
    ensures PayloadAsWritten(10, 1) == PayloadAsWritten(1, 1)
  {
    assert Digits(1) == ['1'];
    assert Digits(10) == ['1', '0'];
  }

  /** The digits of `i` fit in a message of the given size. */
  predicate Fits(i: nat, messageSize: nat) {
    |Digits(i)| <= messageSize
  }

  /** `messages` holds exactly the first `|messages|` payloads. */
  ghost predicate IsPrecomputed(messages: seq<string>, messageSize: nat) {
    forall k :: 0 <= k < |messages| ==> Fits(k, messageSize) && messages[k] == Message(k, messageSize)
  }

  /** Appending the next message keeps the table precomputed. */
  lemma PrecomputedStep(messages: seq<string>, messageSize: nat)
    requires IsPrecomputed(messages, messageSize) && Fits(|messages|, messageSize)
    ensures IsPrecomputed(messages + [Message(|messages|, messageSize)], messageSize)
  {
  }

  /** The precompute loop: one message per iteration, built by copying the
      digits of `i` over a string of dots. */
  method MakeMessages(iterations: nat, messageSize: nat) returns (messages: seq<string>)
    requires iterations == 0 || Fits(iterations - 1, messageSize)
    ensures |messages| == iterations
    ensures IsPrecomputed(messages, messageSize)
    ensures forall i, j :: 0 <= i < j < iterations ==> messages[i] != messages[j]
  {
    messages := [];
    while |messages| < iterations
      invariant |messages| <= iterations
      invariant IsPrecomputed(messages, messageSize)
    {
      var i := |messages|;
      var number := Digits(i);
      var message := Dots(messageSize);
      DigitsMonotone(i, iterations - 1);
      assert message[|number|..] == Dots(messageSize - |number|);
      message := number + message[|number|..];
      PrecomputedStep(messages, messageSize);
      messages := messages + [message];
    }
    forall i, j | 0 <= i < j < iterations
      ensures messages[i] != messages[j]
    {
      DigitsMonotone(i, iterations - 1);
      DigitsMonotone(j, iterations - 1);
      MessagesDistinct(i, j, messageSize);
    }
  }
}
