/**
 * Command-line validation (`parse_args`, `parse_launcher_args`) over the
 * option list `getopt` produces. `strtoul` is modelled on its decimal-digit
 * prefix; the protocol maximum `MAX_MESSAGE_SIZE` is a parameter.
 */
module Args {
  import opened Wrappers
  import opened Messages

  /** One option as `getopt` returns it: the option character (`'?'` for an
      unrecognised option or a missing argument) and its argument. */
  datatype Opt = Opt(flag: char, arg: string)

  datatype Args = Args(messageSize: nat, iterations: nat)

  datatype LauncherArgs = LauncherArgs(messageSize: nat, iterations: nat, benchmarkName: string)

  /** Why the parser exits with `EXIT_FAILURE`. */
  datatype ArgsError = Usage | MissingOption | NotPositive | TooLarge | EmptyName

  /** `strtoul(s, nullptr, 10)` on its leading decimal digits (0 if none). */
  function StrToNat(s: string): nat
  {
    Value(DigitPrefix(s))
  }

  /** Parsing the decimal form of a number gives the number back. */
  lemma StrToNatOfDigits(n: nat)
    ensures StrToNat(Digits(n)) == n
  {
    assert Digits(n) + [] == Digits(n);
    DigitPrefixOfAppend(Digits(n), []);
    ValueOfDigits(n);
  }

  /** The argument of the last occurrence of `flag`: each occurrence
      overwrites the one before. */
  function LastArg(opts: seq<Opt>, flag: char): Option<string>
    decreases |opts|
  {
    if opts == [] then None
    else if opts[|opts| - 1].flag == flag then Some(opts[|opts| - 1].arg)
    else LastArg(opts[..|opts| - 1], flag)
  }

  predicate AllAccepted(opts: seq<Opt>, accepted: set<char>)
  {
    forall k :: 0 <= k < |opts| ==> opts[k].flag in accepted
  }

  /** `parse_args`: `-m` and `-i` are required; the last occurrence of each
      wins; both must be positive and the size at most `maxMessageSize`. */
  function ParseArgsSpec(opts: seq<Opt>, maxMessageSize: nat): (r: Result<Args, ArgsError>)
    ensures r.Success? ==>
      0 < r.value.messageSize <= maxMessageSize && 0 < r.value.iterations
  {
    if !AllAccepted(opts, {'m', 'i'}) then Failure(Usage)
    else if LastArg(opts, 'm').None? || LastArg(opts, 'i').None? then Failure(MissingOption)
    else
      var m, i := StrToNat(LastArg(opts, 'm').value), StrToNat(LastArg(opts, 'i').value);
      if m == 0 || i == 0 then Failure(NotPositive)
      else if m > maxMessageSize then Failure(TooLarge)
      else Success(Args(m, i))
  }

  /** `parse_launcher_args`: as `parse_args`, and `-n` with a non-empty
      benchmark name is required too. */
  function ParseLauncherArgsSpec(opts: seq<Opt>, maxMessageSize: nat): (r: Result<LauncherArgs, ArgsError>)
    ensures r.Success? ==>
      0 < r.value.messageSize <= maxMessageSize && 0 < r.value.iterations && r.value.benchmarkName != []
  {
    if !AllAccepted(opts, {'m', 'i', 'n'}) then Failure(Usage)
    else if LastArg(opts, 'm').None? || LastArg(opts, 'i').None? || LastArg(opts, 'n').None? then Failure(MissingOption)
    else
      var m, i := StrToNat(LastArg(opts, 'm').value), StrToNat(LastArg(opts, 'i').value);
      if m == 0 || i == 0 then Failure(NotPositive)
      else if m > maxMessageSize then Failure(TooLarge)
      else if LastArg(opts, 'n').value == [] then Failure(EmptyName)
      else Success(LauncherArgs(m, i, LastArg(opts, 'n').value))
  }

  lemma LastArgStep(opts: seq<Opt>, k: nat, flag: char)
    requires k < |opts|
    ensures LastArg(opts[..k + 1], flag) ==
      if opts[k].flag == flag then Some(opts[k].arg) else LastArg(opts[..k], flag)
  {
    assert opts[..k + 1][..k] == opts[..k];
  }

  /** The `getopt` loop of `parse_args` followed by its checks. */
  method ParseArgs(opts: seq<Opt>, maxMessageSize: nat) returns (r: Result<Args, ArgsError>)
    ensures r == ParseArgsSpec(opts, maxMessageSize)
  {
    var messageSize, iterations := 0, 0;
    var messageSizeSet, iterationsSet := false, false;
    var k := 0;
    while k < |opts|
      invariant k <= |opts|
      invariant AllAccepted(opts[..k], {'m', 'i'})
      invariant messageSizeSet == LastArg(opts[..k], 'm').Some?
      invariant messageSizeSet ==> messageSize == StrToNat(LastArg(opts[..k], 'm').value)
      invariant iterationsSet == LastArg(opts[..k], 'i').Some?
      invariant iterationsSet ==> iterations == StrToNat(LastArg(opts[..k], 'i').value)
    {
      LastArgStep(opts, k, 'm');
      LastArgStep(opts, k, 'i');
      match opts[k].flag {
        case 'm' =>
          messageSize := StrToNat(opts[k].arg);
          messageSizeSet := true;
        case 'i' =>
          iterations := StrToNat(opts[k].arg);
          iterationsSet := true;
        case _ =>
          return Failure(Usage);
      }
      k := k + 1;
    }
    assert opts[..k] == opts;
    if !messageSizeSet || !iterationsSet {
      return Failure(MissingOption);
    }
    if messageSize == 0 || iterations == 0 {
      return Failure(NotPositive);
    }
    if messageSize > maxMessageSize {
      return Failure(TooLarge);
    }
    return Success(Args(messageSize, iterations));
  }

  /** The `getopt` loop of `parse_launcher_args` followed by its checks. */
  method ParseLauncherArgs(opts: seq<Opt>, maxMessageSize: nat) returns (r: Result<LauncherArgs, ArgsError>)
    ensures r == ParseLauncherArgsSpec(opts, maxMessageSize)
  {
    var messageSize, iterations, benchmarkName := 0, 0, "";
    var messageSizeSet, iterationsSet, benchmarkNameSet := false, false, false;
    var k := 0;
    while k < |opts|
      invariant k <= |opts|
      invariant AllAccepted(opts[..k], {'m', 'i', 'n'})
      invariant messageSizeSet == LastArg(opts[..k], 'm').Some?
      invariant messageSizeSet ==> messageSize == StrToNat(LastArg(opts[..k], 'm').value)
      invariant iterationsSet == LastArg(opts[..k], 'i').Some?
      invariant iterationsSet ==> iterations == StrToNat(LastArg(opts[..k], 'i').value)
      invariant benchmarkNameSet == LastArg(opts[..k], 'n').Some?
      invariant benchmarkNameSet ==> benchmarkName == LastArg(opts[..k], 'n').value
    {
      LastArgStep(opts, k, 'm');
      LastArgStep(opts, k, 'i');
      LastArgStep(opts, k, 'n');
      match opts[k].flag {
        case 'm' =>
          messageSize := StrToNat(opts[k].arg);
          messageSizeSet := true;
        case 'i' =>
          iterations := StrToNat(opts[k].arg);
          iterationsSet := true;
        case 'n' =>
          benchmarkName := opts[k].arg;
          benchmarkNameSet := true;
        case _ =>
          return Failure(Usage);
      }
      k := k + 1;
    }
    assert opts[..k] == opts;
    if !messageSizeSet || !iterationsSet || !benchmarkNameSet {
      return Failure(MissingOption);
    }
    if messageSize == 0 || iterations == 0 {
      return Failure(NotPositive);
    }
    if messageSize > maxMessageSize {
      return Failure(TooLarge);
    }
    if benchmarkName == [] {
      return Failure(EmptyName);
    }
    return Success(LauncherArgs(messageSize, iterations, benchmarkName));
  }

  // ---------------------------------------------------------------------------
  // Properties

  /** A later `-m` or `-i` replaces an earlier one. */
  lemma LastOptionWins(opts: seq<Opt>, v: string, w: string, maxMessageSize: nat)
    requires AllAccepted(opts, {'m', 'i'})
    requires 0 < StrToNat(v) <= maxMessageSize && 0 < StrToNat(w)
    ensures ParseArgsSpec(opts + [Opt('m', v), Opt('i', w)], maxMessageSize)
         == Success(Args(StrToNat(v), StrToNat(w)))
  {
    var all := opts + [Opt('m', v), Opt('i', w)];
    assert all[..|all| - 1] == opts + [Opt('m', v)];
    assert (opts + [Opt('m', v)])[..|opts|] == opts;
    assert forall k :: 0 <= k < |opts| ==> all[k] == opts[k];
    assert AllAccepted(all, {'m', 'i'});
    assert LastArg(all, 'm') == Some(v);
    assert LastArg(all, 'i') == Some(w);
  }

  /** What `-m m -i i` parses to before validation. */
  lemma TwoOptions(m: string, i: string)
    ensures AllAccepted([Opt('m', m), Opt('i', i)], {'m', 'i'})
    ensures LastArg([Opt('m', m), Opt('i', i)], 'm') == Some(m)
    ensures LastArg([Opt('m', m), Opt('i', i)], 'i') == Some(i)
  {
    var a := [Opt('m', m), Opt('i', i)];
    assert a[..1] == [a[0]];
    assert [a[0]][..0] == [];
  }

  /** A message size equal to the maximum is accepted; one above it is not. */
  lemma MaximumIsInclusive(maxMessageSize: nat, w: string)
    requires 0 < maxMessageSize && 0 < StrToNat(w)
    ensures ParseArgsSpec([Opt('m', Digits(maxMessageSize)), Opt('i', w)], maxMessageSize).Success?
    ensures ParseArgsSpec([Opt('m', Digits(maxMessageSize + 1)), Opt('i', w)], maxMessageSize)
         == Failure(TooLarge)
  {
    TwoOptions(Digits(maxMessageSize), w);
    TwoOptions(Digits(maxMessageSize + 1), w);
    StrToNatOfDigits(maxMessageSize);
    StrToNatOfDigits(maxMessageSize + 1);
  }

  /** The launcher passes `-m` and `-i` to its children as `std::to_string`
      of its own validated values; the children read back the same values. */
  lemma LauncherToChildRoundTrip(launcher: LauncherArgs, maxMessageSize: nat)
    requires 0 < launcher.messageSize <= maxMessageSize && 0 < launcher.iterations
    ensures ParseArgsSpec([Opt('m', Digits(launcher.messageSize)), Opt('i', Digits(launcher.iterations))],
                          maxMessageSize)
         == Success(Args(launcher.messageSize, launcher.iterations))
  {
    TwoOptions(Digits(launcher.messageSize), Digits(launcher.iterations));
    StrToNatOfDigits(launcher.messageSize);
    StrToNatOfDigits(launcher.iterations);
  }
}
