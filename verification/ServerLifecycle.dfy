/**
  http/server.go: Serve, serve and shutdown as a state machine. Three
  goroutines (the caller of Serve, the one that runs net/http, and the one that
  watches for a second signal) take one step at a time in any order, over a
  buffered error channel, a signal channel, a done channel, a context and a
  WaitGroup.
 */
module ServerLifecycle {
  import opened Wrappers

  /** What Serve returns: the end of net/http's Serve, or of its Shutdown. */
  datatype Result = Nil | ServeFailed(error: int) | ShutdownEnded(clean: bool)

  /** Program counters. The caller of Serve: */
  datatype Caller =
    | Starting
    | Selecting                        // select over errCh and signalCh
    | Interrupted                      // entering shutdown
    | InShutdown                       // inside net/http's Shutdown
    | ClosingDone(result: Result)      // deferred calls of shutdown, last first
    | CancellingContext(result: Result)
    | StoppingSignals(result: Result)  // deferred calls of Serve, last first
    | WaitingForAll(result: Result)
    | Returned(result: Result)

  /** The goroutine of serve: */
  datatype Server =
    | ServerAbsent
    | Serving                          // inside net/http's Serve
    | Reporting(outcome: Option<int>)
    | ClosingErrors(outcome: Option<int>)
    | ServerLeaving(outcome: Option<int>)
    | ServerGone(outcome: Option<int>)

  /** The goroutine of shutdown: */
  datatype Watcher = WatcherAbsent | Watching | HardStop | WatcherLeaving | WatcherGone

  /** errCh, with room for one error. */
  datatype ErrorChannel = ErrorChannel(buffered: Option<int>, closed: bool)

  /** What can end net/http's Shutdown: `cancel`, the deadline, or no connection left. */
  datatype Ending = Ending(cancelled: bool, timedOut: bool, drained: bool)

  /** signalCh, and what became of the signals. A capacity of zero stands for the nil channel. */
  datatype Signals = Signals(capacity: nat, pending: nat, stopped: bool, arrived: nat, dropped: nat, consumed: nat) {
    function Take(): Signals
      requires pending > 0
    {
      this.(pending := pending - 1, consumed := consumed + 1)
    }

    function Arrive(): Signals {
      if pending < capacity then this.(pending := pending + 1, arrived := arrived + 1)
      else this.(dropped := dropped + 1, arrived := arrived + 1)
    }
  }

  datatype State = State(
    caller: Caller,
    server: Server,
    watcher: Watcher,
    wg: int,            // the WaitGroup's counter
    errCh: ErrorChannel,
    doneClosed: bool,
    ending: Ending,
    signals: Signals
  )

  datatype Action =
    // the caller of Serve
    | StartServer | TakeError | TakeSignal | StartWatcher | CloseDone | CancelContext | StopSignals | Return
    // the goroutine of serve
    | Report | CloseErrors | LeaveServer
    // the goroutine of shutdown
    | WatchSignal | WatchDone | Cancel | LeaveWatcher
    // net/http returns
    | ServeReturns(outcome: Option<int>) | ShutdownReturns(clean: bool)
    // the outside world
    | SignalArrives | Deadline | Drain

  predicate IsOutside(a: Action) {
    a.SignalArrives? || a.Deadline? || a.Drain?
  }

  predicate IsLibrary(a: Action) {
    a.ServeReturns? || a.ShutdownReturns?
  }

  /** `kinds` kinds of signal registered; signalCh has room for two of each. */
  function Init(kinds: nat): State {
    State(Starting, ServerAbsent, WatcherAbsent, 0, ErrorChannel(None, false), false,
          Ending(false, false, false), Signals(2 * kinds, 0, false, 0, 0, 0))
  }

  /** The action can be taken: nothing it waits for is missing. */
  predicate Enabled(s: State, a: Action) {
    match a
    case StartServer => s.caller.Starting?
    case TakeError => s.caller.Selecting? && (s.errCh.buffered.Some? || s.errCh.closed)
    case TakeSignal => s.caller.Selecting? && s.signals.pending > 0
    case StartWatcher => s.caller.Interrupted?
    case CloseDone => s.caller.ClosingDone?
    case CancelContext => s.caller.CancellingContext?
    case StopSignals => s.caller.StoppingSignals?
    case Return => s.caller.WaitingForAll? && s.wg == 0
    case Report => s.server.Reporting? && (s.server.outcome.None? || s.errCh.buffered.None?)
    case CloseErrors => s.server.ClosingErrors?
    case LeaveServer => s.server.ServerLeaving?
    case WatchSignal => s.watcher.Watching? && s.signals.pending > 0
    case WatchDone => s.watcher.Watching? && s.doneClosed
    case Cancel => s.watcher.HardStop?
    case LeaveWatcher => s.watcher.WatcherLeaving?
    case ServeReturns(_) => s.server.Serving?
    case ShutdownReturns(clean) =>
      s.caller.InShutdown? && (if clean then s.ending.drained else s.ending.timedOut || s.ending.cancelled)
    case SignalArrives => s.signals.capacity > 0 && !s.signals.stopped && !s.caller.Starting?
    case Deadline => s.caller.InShutdown?
    case Drain => s.caller.InShutdown?
  }

  /** The action would panic: a send or close on a closed channel, a negative counter. */
  predicate Faults(s: State, a: Action) {
    match a
    case Report => s.server.Reporting? && s.server.outcome.Some? && s.errCh.closed
    case CloseErrors => s.errCh.closed
    case CloseDone => s.doneClosed
    case LeaveServer => s.wg <= 0
    case LeaveWatcher => s.wg <= 0
    case _ => false
  }

  function Apply(s: State, a: Action): State
    requires Enabled(s, a)
  {
    match a
    case StartServer => s.(caller := Selecting, wg := s.wg + 1, server := Serving)
    case TakeError =>
      if s.errCh.buffered.Some?
      then s.(caller := StoppingSignals(ServeFailed(s.errCh.buffered.value)), errCh := s.errCh.(buffered := None))
      else s.(caller := StoppingSignals(Nil))
    case TakeSignal => s.(caller := Interrupted, signals := s.signals.Take())
    case StartWatcher => s.(caller := InShutdown, wg := s.wg + 1, watcher := Watching)
    case CloseDone => s.(caller := CancellingContext(s.caller.result), doneClosed := true)
    case CancelContext => s.(caller := StoppingSignals(s.caller.result), ending := s.ending.(cancelled := true))
    case StopSignals => s.(caller := WaitingForAll(s.caller.result), signals := s.signals.(stopped := true))
    case Return => s.(caller := Returned(s.caller.result))
    case Report =>
      if s.server.outcome.Some?
      then s.(server := ClosingErrors(s.server.outcome), errCh := s.errCh.(buffered := s.server.outcome))
      else s.(server := ClosingErrors(s.server.outcome))
    case CloseErrors => s.(server := ServerLeaving(s.server.outcome), errCh := s.errCh.(closed := true))
    case LeaveServer => s.(server := ServerGone(s.server.outcome), wg := s.wg - 1)
    case WatchSignal => s.(watcher := HardStop, signals := s.signals.Take())
    case WatchDone => s.(watcher := WatcherLeaving)
    case Cancel => s.(watcher := WatcherLeaving, ending := s.ending.(cancelled := true))
    case LeaveWatcher => s.(watcher := WatcherGone, wg := s.wg - 1)
    case ServeReturns(outcome) => s.(server := Reporting(outcome))
    case ShutdownReturns(clean) => s.(caller := ClosingDone(ShutdownEnded(clean)))
    case SignalArrives => s.(signals := s.signals.Arrive())
    case Deadline => s.(ending := s.ending.(timedOut := true))
    case Drain => s.(ending := s.ending.(drained := true))
  }

  // --------------------------------------------------------------------- Runs

  /** Every action of the run is enabled when its turn comes. */
  predicate Possible(s: State, run: seq<Action>)
    decreases |run|
  {
    run == [] || (Enabled(s, run[0]) && Possible(Apply(s, run[0]), run[1..]))
  }

  function Exec(s: State, run: seq<Action>): State
    requires Possible(s, run)
    decreases |run|
  {
    if run == [] then s else Exec(Apply(s, run[0]), run[1..])
  }

  // --------------------------------------------------------------- Invariants

  function ServerLive(v: Server): int {
    if v.ServerAbsent? || v.ServerGone? then 0 else 1
  }

  function WatcherLive(w: Watcher): int {
    if w.WatcherAbsent? || w.WatcherGone? then 0 else 1
  }

  predicate HasResult(c: Caller) {
    c.ClosingDone? || c.CancellingContext? || c.StoppingSignals? || c.WaitingForAll? || c.Returned?
  }

  /** The caller left the select through signalCh. */
  predicate TookSignal(c: Caller) {
    c.Interrupted? || c.InShutdown? || (HasResult(c) && c.result.ShutdownEnded?)
  }

  /** The caller left the select through errCh. */
  predicate TookError(c: Caller) {
    HasResult(c) && !c.result.ShutdownEnded?
  }

  predicate Reported(v: Server) {
    v.ClosingErrors? || v.ServerLeaving? || v.ServerGone?
  }

  predicate CallerInv(c: Caller, v: Server, w: Watcher, doneClosed: bool, stopped: bool) {
    && (c.Starting? <==> v.ServerAbsent?)
    && (w.WatcherAbsent? <==> !TookSignal(c) || c.Interrupted?)
    && (doneClosed <==> TookSignal(c) && HasResult(c) && !c.ClosingDone?)
    && (c.ClosingDone? || c.CancellingContext? ==> c.result.ShutdownEnded?)
    && (c.Returned? ==> ServerLive(v) == 0 && WatcherLive(w) == 0)
    && (stopped <==> c.WaitingForAll? || c.Returned?)
  }

  /** An error is reported once, kept until it is taken, and taken by the caller only. */
  predicate ServerInv(c: Caller, v: Server, e: ErrorChannel) {
    && (e.closed <==> v.ServerLeaving? || v.ServerGone?)
    && (e.buffered.Some? ==> Reported(v) && v.outcome == e.buffered)
    && (Reported(v) && v.outcome.Some? ==> (e.buffered.None? <==> TookError(c)))
    && (TookError(c) ==> Reported(v) && e.buffered.None?)
    && (TookError(c) ==> c.result == if v.outcome.Some? then ServeFailed(v.outcome.value) else Nil)
  }

  predicate SignalInv(c: Caller, w: Watcher, cancelled: bool, g: Signals) {
    && g.pending + g.consumed + g.dropped == g.arrived
    && g.pending <= g.capacity
    && (g.arrived > 0 ==> g.capacity > 0) && (g.dropped > 0 ==> g.pending + g.consumed >= g.capacity)
    && (TookSignal(c) ==> g.consumed >= 1)
    && (w.HardStop? ==> g.consumed >= 2)
    && (cancelled ==> g.consumed >= 2 || (HasResult(c) && c.result.ShutdownEnded?))
    && (!w.WatcherAbsent? ==> TookSignal(c))
  }

  /** Who took the signals: the caller the first, the watcher a second, which cuts the shutdown short. */
  predicate WatchInv(c: Caller, w: Watcher, cancelled: bool, consumed: nat) {
    && (!TookSignal(c) ==> consumed == 0)
    && (c.Interrupted? || w.Watching? ==> consumed == 1)
    && (c.InShutdown? && (w.WatcherLeaving? || w.WatcherGone?) ==> cancelled)
    && (TookSignal(c) && (c.StoppingSignals? || c.WaitingForAll? || c.Returned?) ==> cancelled)
  }

  predicate Inv(s: State) {
    && s.wg == ServerLive(s.server) + WatcherLive(s.watcher)
    && CallerInv(s.caller, s.server, s.watcher, s.doneClosed, s.signals.stopped)
    && ServerInv(s.caller, s.server, s.errCh)
    && SignalInv(s.caller, s.watcher, s.ending.cancelled, s.signals)
    && WatchInv(s.caller, s.watcher, s.ending.cancelled, s.signals.consumed)
  }

  lemma EntrySafe(s: State, a: Action)
    requires Inv(s) && Enabled(s, a) && (a.StartServer? || a.TakeSignal? || a.StartWatcher? || a.ShutdownReturns?)
    ensures Inv(Apply(s, a))
  {
  }

  lemma TakeErrorSafe(s: State)
    requires Inv(s) && Enabled(s, TakeError)
    ensures Inv(Apply(s, TakeError))
  {
  }

  lemma ExitSafe(s: State, a: Action)
    requires Inv(s) && Enabled(s, a) && (a.CloseDone? || a.CancelContext? || a.StopSignals? || a.Return?)
    ensures Inv(Apply(s, a)) && !Faults(s, a)
  {
  }

  lemma ReportSafe(s: State, a: Action)
    requires Inv(s) && Enabled(s, a) && (a.Report? || a.ServeReturns?)
    ensures Inv(Apply(s, a)) && !Faults(s, a)
  {
  }

  lemma LeaveSafe(s: State, a: Action)
    requires Inv(s) && Enabled(s, a) && (a.CloseErrors? || a.LeaveServer?)
    ensures Inv(Apply(s, a)) && !Faults(s, a)
  {
  }

  lemma WatcherSafe(s: State, a: Action)
    requires Inv(s) && Enabled(s, a) && (a.WatchSignal? || a.WatchDone? || a.Cancel? || a.LeaveWatcher?)
    ensures Inv(Apply(s, a)) && !Faults(s, a)
  {
  }

  lemma OutsideSafe(s: State, a: Action)
    requires Inv(s) && Enabled(s, a) && IsOutside(a)
    ensures Inv(Apply(s, a))
  {
  }

  /** No step breaks the invariant, and no step panics. */
  lemma StepSafe(s: State, a: Action)
    requires Inv(s) && Enabled(s, a)
    ensures Inv(Apply(s, a)) && !Faults(s, a)
  {
    match a {
      case StartServer => EntrySafe(s, a);
      case TakeError => TakeErrorSafe(s);
      case TakeSignal => EntrySafe(s, a);
      case StartWatcher => EntrySafe(s, a);
      case CloseDone => ExitSafe(s, a);
      case CancelContext => ExitSafe(s, a);
      case StopSignals => ExitSafe(s, a);
      case Return => ExitSafe(s, a);
      case Report => ReportSafe(s, a);
      case CloseErrors => LeaveSafe(s, a);
      case LeaveServer => LeaveSafe(s, a);
      case WatchSignal => WatcherSafe(s, a);
      case WatchDone => WatcherSafe(s, a);
      case Cancel => WatcherSafe(s, a);
      case LeaveWatcher => WatcherSafe(s, a);
      case ServeReturns(_) => ReportSafe(s, a);
      case ShutdownReturns(_) => EntrySafe(s, a);
      case SignalArrives => OutsideSafe(s, a);
      case Deadline => OutsideSafe(s, a);
      case Drain => OutsideSafe(s, a);
    }
  }

  lemma {:induction false} RunKeepsInv(s: State, run: seq<Action>)
    requires Inv(s) && Possible(s, run)
    ensures Inv(Exec(s, run))
    decreases |run|
  {
    if run != [] {
      StepSafe(s, run[0]);
      RunKeepsInv(Apply(s, run[0]), run[1..]);
    }
  }

  // ------------------------------------------------------------- Main results

  lemma ReachableInv(kinds: nat, run: seq<Action>)
    requires Possible(Init(kinds), run)
    ensures Inv(Exec(Init(kinds), run))
  {
    RunKeepsInv(Init(kinds), run);
  }

  /**
    In every state of every run: the counter is the number of live goroutines,
    reporting an error never blocks, every signal is accounted for, and the
    shutdown context is cancelled early only by a second signal.
   */
  lemma AlwaysSafe(kinds: nat, run: seq<Action>)
    requires Possible(Init(kinds), run)
    ensures var s := Exec(Init(kinds), run);
            && s.wg == ServerLive(s.server) + WatcherLive(s.watcher)
            && (s.server.Reporting? ==> Enabled(s, Report))
            && s.signals.pending + s.signals.consumed + s.signals.dropped == s.signals.arrived
            && (s.caller.InShutdown? && s.ending.cancelled ==> s.signals.consumed >= 2)
            && forall a :: Enabled(s, a) ==> !Faults(s, a)
  {
    ReachableInv(kinds, run);
    var s := Exec(Init(kinds), run);
    forall a | Enabled(s, a)
      ensures !Faults(s, a)
    {
      StepSafe(s, a);
    }
  }

  /** When Serve returns nothing it started is left, and it returns what ended it. */
  lemma ReturnsClean(kinds: nat, run: seq<Action>)
    requires Possible(Init(kinds), run) && Exec(Init(kinds), run).caller.Returned?
    ensures var s := Exec(Init(kinds), run);
            && s.wg == 0 && s.server.ServerGone? && (s.watcher.WatcherGone? || s.watcher.WatcherAbsent?)
            && s.errCh.closed && s.signals.stopped
            && (s.watcher.WatcherGone? ==> s.doneClosed && s.ending.cancelled)
            && (if s.watcher.WatcherGone? then s.caller.result.ShutdownEnded? && s.signals.consumed >= 1
                else s.caller.result == if s.server.outcome.Some? then ServeFailed(s.server.outcome.value) else Nil)
  {
    ReachableInv(kinds, run);
  }

  // ------------------------------------------------------- What Serve returns

  /** Once the caller has a result it keeps it. */
  lemma {:induction false} ResultStays(s: State, run: seq<Action>)
    requires Possible(s, run) && HasResult(s.caller)
    ensures HasResult(Exec(s, run).caller) && Exec(s, run).caller.result == s.caller.result
    ensures forall c :: ShutdownReturns(c) !in run
    decreases |run|
  {
    if run != [] {
      ResultStays(Apply(s, run[0]), run[1..]);
      assert run == [run[0]] + run[1..];
    }
  }

  lemma StepDecides(s: State, a: Action, c: bool)
    requires Enabled(s, a) && !HasResult(s.caller)
    ensures a == ShutdownReturns(c) <==> HasResult(Apply(s, a).caller) && Apply(s, a).caller.result == ShutdownEnded(c)
  {
  }

  lemma {:induction false} ShutdownDecides(s: State, run: seq<Action>, c: bool)
    requires Possible(s, run) && !HasResult(s.caller) && HasResult(Exec(s, run).caller)
    ensures ShutdownReturns(c) in run <==> Exec(s, run).caller.result == ShutdownEnded(c)
    decreases |run|
  {
    var next, rest := Apply(s, run[0]), run[1..];
    assert run == [run[0]] + rest;
    StepDecides(s, run[0], c);
    if HasResult(next.caller) {
      ResultStays(next, rest);
    } else {
      ShutdownDecides(next, rest, c);
    }
  }

  predicate Ended(v: Server) {
    v.Reporting? || Reported(v)
  }

  lemma OutcomeStep(s: State, a: Action)
    requires Enabled(s, a) && (s.caller.Starting? ==> s.server.ServerAbsent?)
    ensures Ended(s.server) ==> Ended(Apply(s, a).server) && Apply(s, a).server.outcome == s.server.outcome
    ensures !Ended(s.server) && Ended(Apply(s, a).server) ==> a == ServeReturns(Apply(s, a).server.outcome)
  {
  }

  /** What the server goroutine holds is what net/http's Serve returned. */
  lemma {:induction false} OutcomeReturned(s: State, run: seq<Action>)
    requires Inv(s) && Possible(s, run) && Ended(Exec(s, run).server)
    ensures if Ended(s.server) then Exec(s, run).server.outcome == s.server.outcome
            else ServeReturns(Exec(s, run).server.outcome) in run
    decreases |run|
  {
    if run != [] {
      StepSafe(s, run[0]);
      OutcomeStep(s, run[0]);
      OutcomeReturned(Apply(s, run[0]), run[1..]);
      assert run == [run[0]] + run[1..];
    }
  }

  lemma ServeDecides(kinds: nat, run: seq<Action>)
    requires Possible(Init(kinds), run) && Exec(Init(kinds), run).caller.Returned?
    requires !Exec(Init(kinds), run).caller.result.ShutdownEnded?
    ensures exists o :: ServeReturns(o) in run &&
              Exec(Init(kinds), run).caller.result == if o.Some? then ServeFailed(o.value) else Nil
  {
    ReachableInv(kinds, run);
    OutcomeReturned(Init(kinds), run);
    assert ServeReturns(Exec(Init(kinds), run).server.outcome) in run;
  }

  /**
    Serve returns what net/http's Shutdown returned, if it was called and
    returned in the run, and otherwise what net/http's Serve did.
   */
  lemma ReturnsWhatEnded(kinds: nat, run: seq<Action>)
    requires Possible(Init(kinds), run) && Exec(Init(kinds), run).caller.Returned?
    ensures var result := Exec(Init(kinds), run).caller.result;
            && (forall c :: ShutdownReturns(c) in run <==> result == ShutdownEnded(c))
            && ((forall c :: ShutdownReturns(c) !in run) ==>
                  exists o :: ServeReturns(o) in run && result == if o.Some? then ServeFailed(o.value) else Nil)
  {
    var result := Exec(Init(kinds), run).caller.result;
    forall c
      ensures ShutdownReturns(c) in run <==> result == ShutdownEnded(c)
    {
      ShutdownDecides(Init(kinds), run, c);
    }
    if result.ShutdownEnded? {
      assert ShutdownReturns(result.clean) in run;
    } else {
      ServeDecides(kinds, run);
    }
  }

  predicate IsProgram(a: Action) {
    !IsOutside(a) && !IsLibrary(a)
  }

  lemma ServerMoves(s: State) returns (a: Action)
    requires ServerInv(s.caller, s.server, s.errCh)
    requires s.server.Reporting? || s.server.ClosingErrors? || s.server.ServerLeaving?
    ensures IsProgram(a) && Enabled(s, a)
  {
    match s.server {
      case Reporting(_) => a := Report;
      case ClosingErrors(_) => a := CloseErrors;
      case ServerLeaving(_) => a := LeaveServer;
    }
  }

  lemma CallerOrWatcherMoves(s: State) returns (a: Action)
    requires CallerInv(s.caller, s.server, s.watcher, s.doneClosed, s.signals.stopped)
    requires s.server.ServerGone? && s.errCh.closed && s.wg == WatcherLive(s.watcher)
    requires s.caller.Selecting? || s.caller.WaitingForAll?
    ensures IsProgram(a) && Enabled(s, a)
  {
    if s.caller.Selecting? {
      a := TakeError;
    } else {
      match s.watcher {
        case Watching => a := WatchDone;
        case HardStop => a := Cancel;
        case WatcherLeaving => a := LeaveWatcher;
        case _ => a := Return;
      }
    }
  }

  /** Outside net/http some goroutine can always move on. */
  lemma SomeoneMoves(s: State) returns (a: Action)
    requires Inv(s) && !s.caller.Returned? && !s.server.Serving? && !s.caller.InShutdown?
    ensures IsProgram(a) && Enabled(s, a)
  {
    match s.caller {
      case Starting => a := StartServer;
      case Interrupted => a := StartWatcher;
      case ClosingDone(_) => a := CloseDone;
      case CancellingContext(_) => a := CancelContext;
      case StoppingSignals(_) => a := StopSignals;
      case _ =>
        if s.server.ServerGone? {
          a := CallerOrWatcherMoves(s);
        } else {
          a := ServerMoves(s);
        }
    }
  }

  /** Once net/http's Serve and Shutdown have returned, nobody stays blocked before Serve has returned. */
  lemma BlockedOnlyInNetHttp(kinds: nat, run: seq<Action>)
    requires Possible(Init(kinds), run)
    requires forall a :: IsProgram(a) ==> !Enabled(Exec(Init(kinds), run), a)
    ensures var s := Exec(Init(kinds), run); s.caller.Returned? || s.server.Serving? || s.caller.InShutdown?
  {
    ReachableInv(kinds, run);
    var s := Exec(Init(kinds), run);
    if !s.caller.Returned? && !s.server.Serving? && !s.caller.InShutdown? {
      var a := SomeoneMoves(s);
    }
  }

  // -------------------------------------------------------------- Termination

  function CallerRank(c: Caller): nat {
    match c
    case Starting => 8
    case Selecting => 7
    case Interrupted => 6
    case InShutdown => 5
    case ClosingDone(_) => 4
    case CancellingContext(_) => 3
    case StoppingSignals(_) => 2
    case WaitingForAll(_) => 1
    case Returned(_) => 0
  }

  function ServerRank(v: Server): nat {
    match v
    case ServerAbsent => 5
    case Serving => 4
    case Reporting(_) => 3
    case ClosingErrors(_) => 2
    case ServerLeaving(_) => 1
    case ServerGone(_) => 0
  }

  function WatcherRank(w: Watcher): nat {
    match w
    case WatcherAbsent => 4
    case Watching => 3
    case HardStop => 2
    case WatcherLeaving => 1
    case WatcherGone => 0
  }

  function Rank(s: State): nat {
    CallerRank(s.caller) + ServerRank(s.server) + WatcherRank(s.watcher)
  }

  lemma RankDrops(s: State, a: Action)
    requires Enabled(s, a) && (a.StartServer? ==> s.server.ServerAbsent?) && (a.StartWatcher? ==> s.watcher.WatcherAbsent?)
    ensures if IsOutside(a) then Rank(Apply(s, a)) == Rank(s) else Rank(Apply(s, a)) < Rank(s)
  {
  }

  function Steps(run: seq<Action>): nat {
    if run == [] then 0 else (if IsOutside(run[0]) then 0 else 1) + Steps(run[1..])
  }

  lemma {:induction false} StepsBounded(s: State, run: seq<Action>)
    requires Inv(s) && Possible(s, run)
    ensures Steps(run) + Rank(Exec(s, run)) <= Rank(s)
    decreases |run|
  {
    if run != [] {
      RankDrops(s, run[0]);
      StepSafe(s, run[0]);
      StepsBounded(Apply(s, run[0]), run[1..]);
    }
  }

  /** However many signals arrive, no run takes more than seventeen steps of its own. */
  lemma RunsAreShort(kinds: nat, run: seq<Action>)
    requires Possible(Init(kinds), run)
    ensures Steps(run) <= 17
  {
    StepsBounded(Init(kinds), run);
  }

  /** A Shutdown that can only wait has been told nothing, and the one signal delivered so far is the one that began it. */
  lemma StuckInShutdown(s: State)
    requires Inv(s) && s.caller.InShutdown? && !Enabled(s, ShutdownReturns(true)) && !Enabled(s, ShutdownReturns(false))
    requires !Enabled(s, Cancel) && !Enabled(s, WatchSignal)
    ensures s.ending == Ending(false, false, false)
    ensures s.watcher.Watching? && s.signals.pending == 0 && s.signals.consumed == 1
  {
  }

  /**
    A run that cannot go on has returned, or waits in a Shutdown that nothing has
    ended yet, watching for a second signal of which there is none.
   */
  lemma RunsEndReturned(kinds: nat, run: seq<Action>)
    requires Possible(Init(kinds), run)
    requires forall a :: !IsOutside(a) ==> !Enabled(Exec(Init(kinds), run), a)
    ensures var s := Exec(Init(kinds), run);
            || s.caller.Returned?
            || (s.caller.InShutdown? && s.ending == Ending(false, false, false)
                && s.watcher.Watching? && s.signals.pending == 0 && s.signals.consumed == 1)
  {
    ReachableInv(kinds, run);
    var s := Exec(Init(kinds), run);
    assert !Enabled(s, ServeReturns(None)) && !Enabled(s, ShutdownReturns(true)) && !Enabled(s, ShutdownReturns(false));
    assert !Enabled(s, Cancel) && !Enabled(s, WatchSignal);
    if s.caller.InShutdown? {
      StuckInShutdown(s);
    } else if !s.caller.Returned? {
      var a := SomeoneMoves(s);
    }
  }

  lemma {:induction false} CapacityStays(s: State, run: seq<Action>)
    requires Possible(s, run)
    ensures Exec(s, run).signals.capacity == s.signals.capacity
    decreases |run|
  {
    if run != [] {
      CapacityStays(Apply(s, run[0]), run[1..]);
    }
  }

  /** The first two signals are never dropped. */
  lemma TwoDelivered(kinds: nat, run: seq<Action>)
    requires Possible(Init(kinds), run)
    ensures var g := Exec(Init(kinds), run).signals; g.arrived >= 2 ==> g.arrived - g.dropped >= 2
  {
    ReachableInv(kinds, run);
    CapacityStays(Init(kinds), run);
  }

  /** A second signal always brings Serve back: no run with two stops short of returning. */
  lemma SecondSignalReturns(kinds: nat, run: seq<Action>)
    requires Possible(Init(kinds), run)
    requires forall a :: !IsOutside(a) ==> !Enabled(Exec(Init(kinds), run), a)
    requires Exec(Init(kinds), run).signals.arrived >= 2
    ensures Exec(Init(kinds), run).caller.Returned?
  {
    TwoDelivered(kinds, run);
    RunsEndReturned(kinds, run);
    ReachableInv(kinds, run);
  }

  /** With no signal registered the caller waits for net/http's Serve alone. */
  lemma {:induction false} NoSignalsNoShutdown(s: State, run: seq<Action>)
    requires Inv(s) && Possible(s, run) && s.signals.capacity == 0 && !TookSignal(s.caller)
    ensures !TookSignal(Exec(s, run).caller)
    decreases |run|
  {
    if run != [] {
      StepSafe(s, run[0]);
      NoSignalsNoShutdown(Apply(s, run[0]), run[1..]);
    }
  }
}
