/**
 * The signal rendezvous (`SignalManager`): two process-global flags set by
 * asynchronous handlers, a per-target handler table, `notify` choosing the
 * other target's signal, and a polled wait that clears the flag it observed.
 * Delivery of a signal is an explicit step; the busy-wait is one guarded
 * poll per call.
 */
module Signals {

  /** Linux numbers of the two user signals. */
  const SIGUSR1: int := 10
  const SIGUSR2: int := 12

  const SERVER_SIGNAL: int := SIGUSR1
  const CLIENT_SIGNAL: int := SIGUSR2

  /** The three kinds of process in a benchmark. */
  datatype SignalTarget = Launcher | Server | Client

  /** What the kernel runs when a signal arrives: the default action
      (abnormal termination) or one of the three handler functions. */
  datatype Handler = DefaultAction | IgnoreSignal | HandleServerSignal | HandleClientSignal

  /** The two `volatile sig_atomic_t` globals of a process. */
  datatype Flags = Flags(serverSignalStatus: int, clientSignalStatus: int)

  const InitialFlags := Flags(0, 0)

  /** Effect of a handler on the flags: each writes the delivered signal
      number into its own flag only. */
  function RunHandler(h: Handler, sig: int, f: Flags): Flags
  {
    match h
    case HandleServerSignal => f.(serverSignalStatus := sig)
    case HandleClientSignal => f.(clientSignalStatus := sig)
    case _ => f
  }

  /** The handler a `SignalManager` of target `t` installs for `sig`. */
  function InstalledHandler(t: SignalTarget, sig: int): Handler
  {
    if sig == SERVER_SIGNAL then (if t == Server then HandleServerSignal else IgnoreSignal)
    else if sig == CLIENT_SIGNAL then (if t == Client then HandleClientSignal else IgnoreSignal)
    else DefaultAction
  }

  /** The signal `notify` broadcasts: the client's for a server, the
      server's for everything else. */
  function NotifySignal(t: SignalTarget): int
  {
    if t == Server then CLIENT_SIGNAL else SERVER_SIGNAL
  }

  /** The guard on which `wait_until_notify` leaves its loop. */
  predicate WaitReady(t: SignalTarget, f: Flags)
  {
    || (t == Server && f.serverSignalStatus == SERVER_SIGNAL)
    || (t == Client && f.clientSignalStatus == CLIENT_SIGNAL)
  }

  /** The flags once `wait_until_notify` has observed its signal. */
  function Consume(t: SignalTarget, f: Flags): Flags
    requires WaitReady(t, f)
  {
    if t == Server then f.(serverSignalStatus := 0) else f.(clientSignalStatus := 0)
  }

  function Peer(t: SignalTarget): SignalTarget
    requires t != Launcher
  {
    if t == Server then Client else Server
  }

  // ---------------------------------------------------------------------------
  // Properties of the protocol

  lemma SignalsDistinct()
    ensures SERVER_SIGNAL != CLIENT_SIGNAL
  {
  }

  /** Each handler writes only its own flag, and only the delivered number;
      the no-op handler writes nothing. */
  lemma HandlerFrame(h: Handler, sig: int, f: Flags)
    ensures h != HandleServerSignal ==> RunHandler(h, sig, f).serverSignalStatus == f.serverSignalStatus
    ensures h != HandleClientSignal ==> RunHandler(h, sig, f).clientSignalStatus == f.clientSignalStatus
    ensures h == HandleServerSignal ==> RunHandler(h, sig, f).serverSignalStatus == sig
    ensures h == HandleClientSignal ==> RunHandler(h, sig, f).clientSignalStatus == sig
  {
  }

  /** Installed tables: the launcher ignores both signals, the server handles
      its own and ignores the client's, the client is the mirror image; no
      installed process is terminated by either user signal. */
  lemma InstalledTables(t: SignalTarget)
    ensures t == Launcher ==>
      InstalledHandler(t, SERVER_SIGNAL) == IgnoreSignal && InstalledHandler(t, CLIENT_SIGNAL) == IgnoreSignal
    ensures t == Server ==>
      InstalledHandler(t, SERVER_SIGNAL) == HandleServerSignal && InstalledHandler(t, CLIENT_SIGNAL) == IgnoreSignal
    ensures t == Client ==>
      InstalledHandler(t, CLIENT_SIGNAL) == HandleClientSignal && InstalledHandler(t, SERVER_SIGNAL) == IgnoreSignal
  {
  }

  /** `notify` from a server or a client makes the peer's wait succeed,
      whatever the peer's flags were. */
  lemma NotifyWakesPeer(t: SignalTarget, f: Flags)
    requires t != Launcher
    ensures var sig := NotifySignal(t);
      WaitReady(Peer(t), RunHandler(InstalledHandler(Peer(t), sig), sig, f))
  {
  }

  /** The signal a server or client broadcasts is one its own table ignores,
      so its own `notify` never satisfies its own wait. */
  lemma OwnNotifyIgnored(t: SignalTarget, f: Flags)
    requires t != Launcher
    ensures InstalledHandler(t, NotifySignal(t)) == IgnoreSignal
    ensures RunHandler(InstalledHandler(t, NotifySignal(t)), NotifySignal(t), f) == f
  {
  }

  /** A launcher's wait never exits. */
  lemma LauncherNeverWakes(f: Flags)
    ensures !WaitReady(Launcher, f)
  {
  }

  /** Once a process is ready to leave its wait, no further delivery of a
      user signal undoes it: a signal that arrives before the wait starts is
      not lost. */
  lemma ReadinessSticky(t: SignalTarget, sig: int, f: Flags)
    requires WaitReady(t, f)
    requires sig == SERVER_SIGNAL || sig == CLIENT_SIGNAL
    ensures WaitReady(t, RunHandler(InstalledHandler(t, sig), sig, f))
  {
  }

  /** Leaving the wait resets the observed flag to 0, keeps the other, and
      is not ready again until another signal arrives. */
  lemma ConsumeClears(t: SignalTarget, f: Flags)
    requires WaitReady(t, f)
    ensures !WaitReady(t, Consume(t, f))
    ensures t == Server ==> Consume(t, f) == Flags(0, f.clientSignalStatus)
    ensures t == Client ==> Consume(t, f) == Flags(f.serverSignalStatus, 0)
  {
  }

  // ---------------------------------------------------------------------------
  // Process state and the manager

  /** A process's signal state: its two global flags, the kernel's handler
      table, and whether a default action has terminated it. */
  class Process {
    var flags: Flags
    var handlers: map<int, Handler>
    var terminated: bool

    constructor ()
      ensures flags == InitialFlags && handlers == map[] && !terminated
    {
      flags := InitialFlags;
      handlers := map[];
      terminated := false;
    }

    function HandlerFor(sig: int): Handler
      reads this
    {
      if sig in handlers then handlers[sig] else DefaultAction
    }

    /** The table a `SignalManager` of target `t` leaves behind. */
    ghost predicate Installed(t: SignalTarget)
      reads this
    {
      HandlerFor(SERVER_SIGNAL) == InstalledHandler(t, SERVER_SIGNAL)
      && HandlerFor(CLIENT_SIGNAL) == InstalledHandler(t, CLIENT_SIGNAL)
    }

    /** Asynchronous arrival of `sig`: the kernel runs the installed handler,
        or terminates the process if none is installed. */
    method Deliver(sig: int)
      modifies this`flags, this`terminated
      ensures terminated == (old(terminated) || old(HandlerFor(sig)) == DefaultAction)
      ensures flags == if old(terminated) then old(flags) else RunHandler(old(HandlerFor(sig)), sig, old(flags))
    {
      if !terminated {
        var h := HandlerFor(sig);
        if h == DefaultAction {
          terminated := true;
        } else if h == HandleServerSignal {
          flags := flags.(serverSignalStatus := sig);
        } else if h == HandleClientSignal {
          flags := flags.(clientSignalStatus := sig);
        }
      }
    }
  }

  class SignalManager {
    const target: SignalTarget
    const process: Process

    /** Installs the handlers for `target`; the flags are left alone. */
    constructor (target: SignalTarget, process: Process)
      modifies process`handlers
      ensures this.target == target && this.process == process
      ensures process.Installed(target)
      ensures forall sig :: sig != SERVER_SIGNAL && sig != CLIENT_SIGNAL ==>
        process.HandlerFor(sig) == old(process.HandlerFor(sig))
    {
      this.target := target;
      this.process := process;
      match target
      case Launcher =>
        process.handlers := process.handlers[SERVER_SIGNAL := IgnoreSignal][CLIENT_SIGNAL := IgnoreSignal];
      case Server =>
        process.handlers := process.handlers[SERVER_SIGNAL := HandleServerSignal][CLIENT_SIGNAL := IgnoreSignal];
      case Client =>
        process.handlers := process.handlers[CLIENT_SIGNAL := HandleClientSignal][SERVER_SIGNAL := IgnoreSignal];
    }

    /** The signal sent to the whole process group: the other target's. */
    method Notify() returns (sig: int)
      ensures sig == NotifySignal(target)
      ensures target == Server ==> sig == CLIENT_SIGNAL
      ensures target != Server ==> sig == SERVER_SIGNAL
    {
      sig := if target == Server then CLIENT_SIGNAL else SERVER_SIGNAL;
    }

    /** One pass of the `wait_until_notify` loop: leaves (returning true) only
        when the flag of this target holds this target's signal, resetting
        that flag to 0; otherwise changes nothing and must be retried. */
    method PollWait() returns (done: bool)
      modifies process`flags
      ensures done <==> WaitReady(target, old(process.flags))
      ensures done ==> process.flags == Consume(target, old(process.flags))
      ensures !done ==> process.flags == old(process.flags)
    {
      var f := process.flags;
      if target == Server && f.serverSignalStatus == SERVER_SIGNAL {
        process.flags := f.(serverSignalStatus := 0);
        return true;
      } else if target == Client && f.clientSignalStatus == CLIENT_SIGNAL {
        process.flags := f.(clientSignalStatus := 0);
        return true;
      }
      return false;
    }
  }
}
