/**
 * The server's lifecycle as a transition system: any number of Serve loops, Shutdown callers and connection
 * goroutines, one step for each atomic action. A critical section that others can see inside of (a listener is
 * closed before the done channel is, a state word is read before the connection is closed) takes several steps,
 * during which mu is held.
 */
module ServerProtocol {
  import opened ConnStates
  import opened Servers

  // ---- States ----

  datatype Verdict = ServerClosed | OtherError

  /** Why a Serve loop ended: it was refused, its listener was found closed, or Accept failed otherwise. */
  datatype Cause = Refused | ListenerClosed | SocketFailure(temporary: bool)

  datatype ServePc =
    | Fresh                                          // the listener is wrapped, trackListener to come
    | Adding                                         // in trackListener with mu, the flag was seen down
    | Accepting                                      // in the loop, Accept to come
    | Failed(cause: Cause)                           // Accept failed, getDoneChan to come
    | Selecting(cause: Cause)                        // has the channel, the select on it to come
    | Accepted(c: nat)                               // has a connection, trackConn to come
    | Tracked(c: nat)                                // the connection is tracked, its state word to be stored
    | Leaving(verdict: Verdict, cause: Cause)        // returning, the deferred trackListener(false) to come
    | Closing(verdict: Verdict, cause: Cause)        // the deferred Close to come
    | Returned(verdict: Verdict, cause: Cause)
  {
    predicate InLoop()
    {
      Accepting? || Failed? || Selecting? || Accepted? || Tracked? || Leaving?
    }

    predicate HasVerdict()
    {
      Leaving? || Closing? || Returned?
    }
  }

  datatype ConnPc =
    | Pending(l: nat)                                // still with the Serve loop that accepted it
    | Serving                                        // its goroutine runs
    | Ending                                         // socket closed by its goroutine, trackConn(false) to come
    | Untracked                                      // the last state store to come
    | Gone

  /** What a Shutdown carries along: the listeners tracked when it had the lock, and whether one failed to close. */
  datatype Report = Report(seen: set<nat>, err: bool)

  datatype ShutPc =
    | Flagged                                                             // inShutdown set, mu to be taken
    | Sweeping(r: Report, todo: set<nat>)                                 // with mu, closing listeners
    | Polling(r: Report)                                                  // at the top of the loop
    | Visiting(r: Report, todo: set<nat>, quiescent: bool)                // with mu, in closeIdleConns
    | Dooming(r: Report, todo: set<nat>, quiescent: bool, c: nat,
              unixSec: int, state: ConnState)                             // the same, c's word was read, its close to come
    | Quiet(r: Report, gap: set<nat>)                                     // closeIdleConns said yes, numListeners to come
    | Waiting(r: Report)                                                  // in the select
    | Succeeded(r: Report, gap: set<nat>)
    | Expired(r: Report)
  {
    predicate Locked()
    {
      Sweeping? || Visiting? || Dooming?
    }

    predicate PastSweep()
    {
      !Flagged? && !Sweeping?
    }
  }

  datatype Holder = Free | ByServe(l: nat) | ByShutdown(i: nat)

  /**
   * Listeners, connections and Shutdown calls are named by numbers. `closed` are the wrapped listeners whose
   * Close has run, `closeErr` those that failed to close; `innerCloses` and `doneCloses` count the real closes.
   * `words` are the state words; `meant` is the time and state last stored in each, for the record.
   */
  datatype State = State(
    inShutdown: bool, mu: Holder, listeners: set<nat>, activeConn: set<nat>, done: DoneChan, doneCloses: nat,
    closed: set<nat>, closeErr: set<nat>, innerCloses: multiset<nat>,
    words: map<nat, nat>, meant: map<nat, (int, ConnState)>, rwcClosed: set<nat>, now: int,
    serves: map<nat, ServePc>, conns: map<nat, ConnPc>, shuts: map<nat, ShutPc>)
  {
    function Word(c: nat): nat
    {
      if c in words then words[c] else 0
    }

    function Stored(c: nat, state: ConnState): State
    {
      this.(words := words[c := Pack(now, state)], meant := meant[c := (now, state)])
    }

    /** onceCloseListener.Close; `fails` is what the inner listener answers if it is asked. */
    function Close(l: nat, fails: bool): State
    {
      this.(closed := closed + {l},
            innerCloses := if l in closed then innerCloses else innerCloses + multiset{l},
            closeErr := if l in closed || !fails then closeErr else closeErr + {l})
    }

    function At(l: nat, pc: ServePc): State
    {
      this.(serves := serves[l := pc])
    }

    function ShutAt(i: nat, pc: ShutPc): State
    {
      this.(shuts := shuts[i := pc])
    }

    /** The connections accepted and not yet tracked or handed on. */
    ghost function Gap(): set<nat>
    {
      set c | c in conns && conns[c].Pending?
    }
  }

  const INIT := State(false, Free, {}, {}, NilChan, 0, {}, {}, multiset{}, map[], map[], {}, 1, map[], map[], map[])

  // ---- Actions ----

  /** Steps of a Serve call on its listener `l` up to its loop. */
  datatype EnterAction =
    | ServeCall(l: nat)
    | TrackCheck(l: nat)
    | TrackAdd(l: nat)

  /** Steps of the loop as long as Accept succeeds. */
  datatype AcceptAction =
    | AcceptOk(l: nat, c: nat)
    | TrackConn(l: nat)
    | StoreNew(l: nat)

  /** Steps from a failing Accept on. */
  datatype LeaveAction =
    | AcceptFails(l: nat, temporary: bool)
    | GetDone(l: nat)
    | Select(l: nat)
    | Untrack(l: nat)
    | DeferredClose(l: nat, fails: bool)

  /** Steps of Shutdown call `i` up to the end of its locked section. */
  datatype SweepAction =
    | ShutdownCall(i: nat)
    | LockSweep(i: nat)
    | CloseListener(i: nat, l: nat, fails: bool)
    | EndSweep(i: nat)

  /** Steps of Shutdown call `i` in its polling loop. */
  datatype PollAction =
    | LockIdle(i: nat)
    | VisitConn(i: nat, c: nat)
    | CloseDoomed(i: nat)
    | UnlockIdle(i: nat)
    | CountListeners(i: nat)
    | Tick(i: nat)
    | Expire(i: nat)

  /** Steps of the goroutine of connection `c`, and of the clock. */
  datatype ConnAction =
    | ConnStore(c: nat, state: ConnState)
    | ConnClose(c: nat)
    | ConnUntrack(c: nat)
    | ConnLast(c: nat)
    | Advance(seconds: nat)

  datatype Action =
    | Enter(enter: EnterAction)
    | Accept(accept: AcceptAction)
    | Leave(leave: LeaveAction)
    | Sweep(sweep: SweepAction)
    | Poll(poll: PollAction)
    | Traffic(conn: ConnAction)

  predicate EnterEnabled(s: State, a: EnterAction)
  {
    match a
    case ServeCall(l) => l !in s.serves
    case TrackCheck(l) => l in s.serves && s.serves[l].Fresh? && s.mu.Free?
    case TrackAdd(l) => l in s.serves && s.serves[l].Adding?
  }

  predicate AcceptEnabled(s: State, a: AcceptAction)
  {
    match a
    case AcceptOk(l, c) => l in s.serves && s.serves[l].Accepting? && l !in s.closed && c !in s.conns
    case TrackConn(l) => l in s.serves && s.serves[l].Accepted? && s.mu.Free?
    case StoreNew(l) => l in s.serves && s.serves[l].Tracked?
  }

  predicate LeaveEnabled(s: State, a: LeaveAction)
  {
    match a
    case AcceptFails(l, _) => l in s.serves && s.serves[l].Accepting?
    case GetDone(l) => l in s.serves && s.serves[l].Failed? && s.mu.Free?
    case Select(l) => l in s.serves && s.serves[l].Selecting?
    case Untrack(l) => l in s.serves && s.serves[l].Leaving? && s.mu.Free?
    case DeferredClose(l, _) => l in s.serves && s.serves[l].Closing?
  }

  predicate SweepEnabled(s: State, a: SweepAction)
  {
    match a
    case ShutdownCall(i) => i !in s.shuts
    case LockSweep(i) => i in s.shuts && s.shuts[i].Flagged? && s.mu.Free?
    case CloseListener(i, l, _) => i in s.shuts && s.shuts[i].Sweeping? && l in s.shuts[i].todo
    case EndSweep(i) => i in s.shuts && s.shuts[i].Sweeping? && s.shuts[i].todo == {}
  }

  predicate PollEnabled(s: State, a: PollAction)
  {
    match a
    case LockIdle(i) => i in s.shuts && s.shuts[i].Polling? && s.mu.Free?
    case VisitConn(i, c) => i in s.shuts && s.shuts[i].Visiting? && c in s.shuts[i].todo
    case CloseDoomed(i) => i in s.shuts && s.shuts[i].Dooming?
    case UnlockIdle(i) => i in s.shuts && s.shuts[i].Visiting? && s.shuts[i].todo == {}
    case CountListeners(i) => i in s.shuts && s.shuts[i].Quiet? && s.mu.Free?
    case Tick(i) => i in s.shuts && s.shuts[i].Waiting?
    case Expire(i) => i in s.shuts && s.shuts[i].Waiting?
  }

  predicate ConnEnabled(s: State, a: ConnAction)
  {
    match a
    case ConnStore(c, state) => c in s.conns && s.conns[c].Serving? && (state.StateActive? || state.StateIdle?)
    case ConnClose(c) => c in s.conns && s.conns[c].Serving?
    case ConnUntrack(c) => c in s.conns && s.conns[c].Ending? && s.mu.Free?
    case ConnLast(c) => c in s.conns && s.conns[c].Untracked?
    case Advance(seconds) => s.now + seconds < TIMES
  }

  predicate Enabled(s: State, a: Action)
  {
    match a
    case Enter(x) => EnterEnabled(s, x)
    case Accept(x) => AcceptEnabled(s, x)
    case Leave(x) => LeaveEnabled(s, x)
    case Sweep(x) => SweepEnabled(s, x)
    case Poll(x) => PollEnabled(s, x)
    case Traffic(x) => ConnEnabled(s, x)
  }

  function EnterApply(s: State, a: EnterAction): State
    requires EnterEnabled(s, a)
  {
    match a
    case ServeCall(l) => s.At(l, Fresh)
    case TrackCheck(l) =>
      s.At(l, if s.inShutdown then Closing(ServerClosed, Refused) else Adding).(mu := if s.inShutdown then Free else ByServe(l))
    case TrackAdd(l) => s.At(l, Accepting).(listeners := s.listeners + {l}, mu := Free)
  }

  function AcceptApply(s: State, a: AcceptAction): State
    requires AcceptEnabled(s, a)
  {
    match a
    case AcceptOk(l, c) => s.At(l, Accepted(c)).(conns := s.conns[c := Pending(l)])
    case TrackConn(l) => s.At(l, Tracked(s.serves[l].c)).(activeConn := s.activeConn + {s.serves[l].c})
    case StoreNew(l) =>
      var c := s.serves[l].c;
      s.At(l, Accepting).Stored(c, StateNew).(conns := s.conns[c := Serving])
  }

  function LeaveApply(s: State, a: LeaveAction): State
    requires LeaveEnabled(s, a)
  {
    match a
    case AcceptFails(l, temporary) => s.At(l, Failed(if l in s.closed then ListenerClosed else SocketFailure(temporary)))
    case GetDone(l) => s.At(l, Selecting(s.serves[l].cause)).(done := s.done.Made())
    case Select(l) =>
      var cause := s.serves[l].cause;
      s.At(l, if s.done.ClosedChan? then Leaving(ServerClosed, cause)
              else if cause == SocketFailure(true) then Accepting
              else Leaving(OtherError, cause))
    case Untrack(l) => s.At(l, Closing(s.serves[l].verdict, s.serves[l].cause)).(listeners := s.listeners - {l})
    case DeferredClose(l, fails) => s.At(l, Returned(s.serves[l].verdict, s.serves[l].cause)).Close(l, fails)
  }

  function SweepApply(s: State, a: SweepAction): State
    requires SweepEnabled(s, a)
  {
    match a
    case ShutdownCall(i) => s.ShutAt(i, Flagged).(inShutdown := true)
    case LockSweep(i) => s.ShutAt(i, Sweeping(Report(s.listeners, false), s.listeners)).(mu := ByShutdown(i))
    case CloseListener(i, l, fails) =>
      var n := s.Close(l, fails);
      var r := s.shuts[i].r;
      n.ShutAt(i, Sweeping(Report(r.seen, r.err || l in n.closeErr), s.shuts[i].todo - {l}))
    case EndSweep(i) =>
      s.ShutAt(i, Polling(s.shuts[i].r)).(
        mu := Free, done := ClosedChan, doneCloses := s.doneCloses + if s.done.ClosedChan? then 0 else 1)
  }

  ghost function PollApply(s: State, a: PollAction): State
    requires PollEnabled(s, a)
  {
    match a
    case LockIdle(i) => s.ShutAt(i, Visiting(s.shuts[i].r, s.activeConn, true)).(mu := ByShutdown(i))
    case VisitConn(i, c) =>
      var v := s.shuts[i];
      var (unixSec, state) := if c in s.meant then s.meant[c] else (0, StateNew);
      s.ShutAt(i, if Doomed(s.Word(c), s.now) then Dooming(v.r, v.todo - {c}, v.quiescent, c, unixSec, state)
                  else Visiting(v.r, v.todo - {c}, false))
    case CloseDoomed(i) =>
      var v := s.shuts[i];
      s.ShutAt(i, Visiting(v.r, v.todo, v.quiescent)).(activeConn := s.activeConn - {v.c}, rwcClosed := s.rwcClosed + {v.c})
    case UnlockIdle(i) =>
      s.ShutAt(i, if s.shuts[i].quiescent then Quiet(s.shuts[i].r, s.Gap()) else Waiting(s.shuts[i].r)).(mu := Free)
    case CountListeners(i) =>
      s.ShutAt(i, if s.listeners == {} then Succeeded(s.shuts[i].r, s.shuts[i].gap) else Waiting(s.shuts[i].r))
    case Tick(i) => s.ShutAt(i, Polling(s.shuts[i].r))
    case Expire(i) => s.ShutAt(i, Expired(s.shuts[i].r))
  }

  function ConnApply(s: State, a: ConnAction): State
    requires ConnEnabled(s, a)
  {
    match a
    case ConnStore(c, state) => s.Stored(c, state)
    case ConnClose(c) => s.(conns := s.conns[c := Ending], rwcClosed := s.rwcClosed + {c})
    case ConnUntrack(c) => s.(conns := s.conns[c := Untracked], activeConn := s.activeConn - {c})
    case ConnLast(c) => s.Stored(c, StateClosed).(conns := s.conns[c := Gone])
    case Advance(seconds) => s.(now := s.now + seconds)
  }

  ghost function Apply(s: State, a: Action): State
    requires Enabled(s, a)
  {
    match a
    case Enter(x) => EnterApply(s, x)
    case Accept(x) => AcceptApply(s, x)
    case Leave(x) => LeaveApply(s, x)
    case Sweep(x) => SweepApply(s, x)
    case Poll(x) => PollApply(s, x)
    case Traffic(x) => ConnApply(s, x)
  }

  ghost predicate Run(s: State, run: seq<Action>)
    decreases |run|
  {
    run == [] || (Enabled(s, run[0]) && Run(Apply(s, run[0]), run[1..]))
  }

  ghost function End(s: State, run: seq<Action>): State
    requires Run(s, run)
    decreases |run|
  {
    if run == [] then s else End(Apply(s, run[0]), run[1..])
  }

  // ---- Invariants ----

  /** mu is held by exactly the one who is inside a section. */
  ghost predicate MutexInv(s: State)
  {
    && (forall l :: l in s.serves && s.serves[l].Adding? ==> s.mu == ByServe(l))
    && (forall i :: i in s.shuts && s.shuts[i].Locked() ==> s.mu == ByShutdown(i))
    && (s.mu.ByServe? ==> s.mu.l in s.serves && s.serves[s.mu.l].Adding?)
    && (s.mu.ByShutdown? ==> s.mu.i in s.shuts && s.shuts[s.mu.i].Locked())
  }

  /** The tracked listeners are those of the loops that run; the flag is up exactly if some Shutdown was called. */
  ghost predicate TrackInv(s: State)
  {
    && s.listeners <= s.serves.Keys
    && (forall l :: l in s.serves ==> (l in s.listeners <==> s.serves[l].InLoop()))
    && (forall l :: l in s.closed ==> l in s.serves && !s.serves[l].Fresh? && !s.serves[l].Adding?)
    && (forall i :: i in s.shuts ==> s.inShutdown)
    && (s.inShutdown ==> s.shuts != map[])
  }

  /** Every real close happens once. */
  ghost predicate OnceInv(s: State)
  {
    && s.doneCloses == (if s.done.ClosedChan? then 1 else 0)
    && (forall l: nat :: s.innerCloses[l] == if l in s.closed then 1 else 0)
    && s.closeErr <= s.closed
  }

  /** A sweep has closed what it has behind it; a closed done channel means that all of it is closed for good. */
  ghost predicate SweepInv(s: State)
  {
    && (forall i :: i in s.shuts && s.shuts[i].Sweeping? ==>
          && s.shuts[i].r.seen == s.listeners
          && s.shuts[i].todo <= s.listeners
          && s.listeners - s.shuts[i].todo <= s.closed)
    && (forall i :: i in s.shuts && s.shuts[i].PastSweep() ==> s.done.ClosedChan?)
    && (s.done.ClosedChan? ==>
          && s.inShutdown
          && s.listeners <= s.closed
          && forall l :: l in s.serves ==> !s.serves[l].Adding?)
  }

  /** A loop finds its listener closed only during or after a sweep, and remembers that. */
  ghost predicate CaughtInv(s: State)
  {
    && (forall l :: l in s.listeners && l in s.closed ==>
          s.done.ClosedChan? || (s.mu.ByShutdown? && s.mu.i in s.shuts && s.shuts[s.mu.i].Sweeping?))
    && (forall l :: l in s.serves && s.serves[l].Failed? ==>
          !s.serves[l].cause.Refused? && (s.serves[l].cause.ListenerClosed? ==> l in s.closed))
    && (forall l :: l in s.serves && s.serves[l].Selecting? ==>
          !s.serves[l].cause.Refused? && (s.serves[l].cause.ListenerClosed? ==> s.done.ClosedChan?))
  }

  /** The verdict is ErrServerClosed only after a Shutdown was called, and always if that is why the loop ended. */
  ghost predicate VerdictInv(s: State)
  {
    forall l :: l in s.serves && s.serves[l].HasVerdict() ==>
      && (s.serves[l].verdict.ServerClosed? ==> s.inShutdown)
      && (s.serves[l].cause.ListenerClosed? || s.serves[l].cause.Refused? ==> s.serves[l].verdict.ServerClosed?)
  }

  /** Connections are tracked between their trackConn calls; words say what was stored. */
  ghost predicate ConnInv(s: State)
  {
    && (forall c :: c in s.activeConn ==> c in s.conns && !s.conns[c].Untracked? && !s.conns[c].Gone?)
    && (forall l :: l in s.serves && s.serves[l].Accepted? ==>
          s.serves[l].c in s.conns && s.conns[s.serves[l].c] == Pending(l) && s.serves[l].c !in s.activeConn)
    && (forall l :: l in s.serves && s.serves[l].Tracked? ==>
          s.serves[l].c in s.conns && s.conns[s.serves[l].c] == Pending(l) && s.serves[l].c in s.activeConn)
    && (forall c :: c in s.conns && s.conns[c].Pending? ==>
          && s.conns[c].l in s.serves
          && (s.serves[s.conns[c].l] == Accepted(c) || s.serves[s.conns[c].l] == Tracked(c))
          && c !in s.words)
  }

  ghost predicate WordInv(s: State)
  {
    && 0 < s.now < TIMES
    && s.words.Keys == s.meant.Keys
    && s.words.Keys <= s.conns.Keys
    && forall c :: c in s.words ==> s.words[c] == Pack(s.meant[c].0, s.meant[c].1) && 0 < s.meant[c].0 <= s.now
  }

  /** closeIdleConns at work: what is left is what is still to visit, unless something was kept. */
  ghost predicate IdleInv(s: State)
  {
    VisitInv(s) && DoomInv(s)
  }

  ghost predicate VisitInv(s: State)
  {
    && (forall i :: i in s.shuts && s.shuts[i].Visiting? ==>
          s.shuts[i].todo <= s.activeConn && (s.shuts[i].quiescent <==> s.activeConn == s.shuts[i].todo))
    && (forall i :: i in s.shuts && s.shuts[i].Dooming? ==>
          && s.shuts[i].todo <= s.activeConn && s.shuts[i].c in s.activeConn && s.shuts[i].c !in s.shuts[i].todo
          && (s.shuts[i].quiescent <==> s.activeConn == s.shuts[i].todo + {s.shuts[i].c}))
  }

  /** What is about to be closed had a state stored, and that was idle, or new and stale. */
  ghost predicate DoomInv(s: State)
  {
    forall i :: i in s.shuts && s.shuts[i].Dooming? ==>
      && s.shuts[i].c in s.words
      && (s.shuts[i].state.StateIdle? || (s.shuts[i].state.StateNew? && s.shuts[i].unixSec < s.now - 5))
  }

  /** After a quiet check only connections that were in between can still be tracked; after success no loop runs. */
  ghost predicate SuccessInv(s: State)
  {
    && (forall i :: i in s.shuts && s.shuts[i].Quiet? ==>
          && s.activeConn <= s.shuts[i].gap
          && (forall l :: l in s.serves && s.serves[l].Accepted? ==> s.serves[l].c in s.shuts[i].gap))
    && (forall i :: i in s.shuts && s.shuts[i].Succeeded? ==> s.listeners == {} && s.activeConn <= s.shuts[i].gap)
  }

  /** A Shutdown reports an error if and only if a listener it saw has failed to close. */
  ghost predicate ReportInv(s: State)
  {
    && (forall i :: i in s.shuts && s.shuts[i].Sweeping? ==>
          (s.shuts[i].r.err <==> exists l :: l in s.shuts[i].r.seen - s.shuts[i].todo && l in s.closeErr))
    && (forall i :: i in s.shuts && s.shuts[i].PastSweep() ==>
          && s.shuts[i].r.seen <= s.closed
          && (s.shuts[i].r.err <==> exists l :: l in s.shuts[i].r.seen && l in s.closeErr))
  }

  ghost predicate Inv(s: State)
  {
    && MutexInv(s) && TrackInv(s) && OnceInv(s) && SweepInv(s) && CaughtInv(s) && VerdictInv(s)
    && ConnInv(s) && WordInv(s) && IdleInv(s) && SuccessInv(s) && ReportInv(s)
  }

  lemma InitInv()
    ensures Inv(INIT)
  {
  }

  // ---- Every step keeps them ----

  // the way into a Serve loop

  lemma EnterKeepsMutex(s: State, a: EnterAction)
    requires MutexInv(s) && TrackInv(s) && SweepInv(s) && EnterEnabled(s, a)
    ensures MutexInv(EnterApply(s, a)) && TrackInv(EnterApply(s, a))
  {
  }

  lemma EnterKeepsCloses(s: State, a: EnterAction)
    requires MutexInv(s) && TrackInv(s) && OnceInv(s) && SweepInv(s) && EnterEnabled(s, a)
    ensures OnceInv(EnterApply(s, a)) && SweepInv(EnterApply(s, a))
  {
  }

  lemma EnterKeepsVerdicts(s: State, a: EnterAction)
    requires MutexInv(s) && TrackInv(s) && SweepInv(s) && CaughtInv(s) && VerdictInv(s) && EnterEnabled(s, a)
    ensures CaughtInv(EnterApply(s, a)) && VerdictInv(EnterApply(s, a))
  {
  }

  lemma EnterKeepsConns(s: State, a: EnterAction)
    requires ConnInv(s) && WordInv(s) && IdleInv(s) && EnterEnabled(s, a)
    ensures ConnInv(EnterApply(s, a)) && WordInv(EnterApply(s, a))
  {
  }

  lemma EnterKeepsIdle(s: State, a: EnterAction)
    requires MutexInv(s) && ConnInv(s) && WordInv(s) && IdleInv(s) && EnterEnabled(s, a)
    ensures IdleInv(EnterApply(s, a))
  {
  }

  lemma EnterKeepsSuccess(s: State, a: EnterAction)
    requires MutexInv(s) && TrackInv(s) && SweepInv(s) && ConnInv(s) && IdleInv(s) && SuccessInv(s) && EnterEnabled(s, a)
    ensures SuccessInv(EnterApply(s, a))
  {
  }

  lemma EnterKeepsReport(s: State, a: EnterAction)
    requires MutexInv(s) && OnceInv(s) && SweepInv(s) && ReportInv(s) && EnterEnabled(s, a)
    ensures ReportInv(EnterApply(s, a))
  {
  }

  lemma EnterKeeps(s: State, a: EnterAction)
    requires Inv(s) && EnterEnabled(s, a)
    ensures Inv(EnterApply(s, a))
  {
    EnterKeepsMutex(s, a);
    EnterKeepsCloses(s, a);
    EnterKeepsVerdicts(s, a);
    EnterKeepsConns(s, a);
    EnterKeepsIdle(s, a);
    EnterKeepsSuccess(s, a);
    EnterKeepsReport(s, a);
  }

  // a connection accepted

  lemma AcceptKeepsMutex(s: State, a: AcceptAction)
    requires MutexInv(s) && TrackInv(s) && SweepInv(s) && AcceptEnabled(s, a)
    ensures MutexInv(AcceptApply(s, a)) && TrackInv(AcceptApply(s, a))
  {
  }

  lemma AcceptKeepsCloses(s: State, a: AcceptAction)
    requires MutexInv(s) && TrackInv(s) && OnceInv(s) && SweepInv(s) && AcceptEnabled(s, a)
    ensures OnceInv(AcceptApply(s, a)) && SweepInv(AcceptApply(s, a))
  {
  }

  lemma AcceptKeepsVerdicts(s: State, a: AcceptAction)
    requires MutexInv(s) && TrackInv(s) && SweepInv(s) && CaughtInv(s) && VerdictInv(s) && AcceptEnabled(s, a)
    ensures CaughtInv(AcceptApply(s, a)) && VerdictInv(AcceptApply(s, a))
  {
  }

  lemma AcceptKeepsConns(s: State, a: AcceptAction)
    requires ConnInv(s) && WordInv(s) && IdleInv(s) && AcceptEnabled(s, a)
    ensures ConnInv(AcceptApply(s, a)) && WordInv(AcceptApply(s, a))
  {
  }

  lemma AcceptKeepsIdle(s: State, a: AcceptAction)
    requires MutexInv(s) && ConnInv(s) && WordInv(s) && IdleInv(s) && AcceptEnabled(s, a)
    ensures IdleInv(AcceptApply(s, a))
  {
  }

  lemma AcceptKeepsSuccess(s: State, a: AcceptAction)
    requires MutexInv(s) && TrackInv(s) && SweepInv(s) && ConnInv(s) && IdleInv(s) && SuccessInv(s) && AcceptEnabled(s, a)
    ensures SuccessInv(AcceptApply(s, a))
  {
  }

  lemma AcceptKeepsReport(s: State, a: AcceptAction)
    requires MutexInv(s) && OnceInv(s) && SweepInv(s) && ReportInv(s) && AcceptEnabled(s, a)
    ensures ReportInv(AcceptApply(s, a))
  {
  }

  lemma AcceptKeeps(s: State, a: AcceptAction)
    requires Inv(s) && AcceptEnabled(s, a)
    ensures Inv(AcceptApply(s, a))
  {
    AcceptKeepsMutex(s, a);
    AcceptKeepsCloses(s, a);
    AcceptKeepsVerdicts(s, a);
    AcceptKeepsConns(s, a);
    AcceptKeepsIdle(s, a);
    AcceptKeepsSuccess(s, a);
    AcceptKeepsReport(s, a);
  }

  // the way out of the loop

  lemma LeaveKeepsMutex(s: State, a: LeaveAction)
    requires MutexInv(s) && LeaveEnabled(s, a)
    ensures MutexInv(LeaveApply(s, a))
  {
  }

  lemma LeaveKeepsTrack(s: State, a: LeaveAction)
    requires TrackInv(s) && LeaveEnabled(s, a)
    ensures TrackInv(LeaveApply(s, a))
  {
  }

  lemma LeaveKeepsCloses(s: State, a: LeaveAction)
    requires MutexInv(s) && TrackInv(s) && OnceInv(s) && SweepInv(s) && LeaveEnabled(s, a)
    ensures OnceInv(LeaveApply(s, a)) && SweepInv(LeaveApply(s, a))
  {
  }

  lemma LeaveKeepsCaught(s: State, a: LeaveAction)
    requires TrackInv(s) && SweepInv(s) && CaughtInv(s) && LeaveEnabled(s, a)
    ensures CaughtInv(LeaveApply(s, a))
  {
  }

  lemma LeaveKeepsVerdicts(s: State, a: LeaveAction)
    requires SweepInv(s) && CaughtInv(s) && VerdictInv(s) && LeaveEnabled(s, a)
    ensures VerdictInv(LeaveApply(s, a))
  {
  }

  lemma LeaveKeepsConns(s: State, a: LeaveAction)
    requires ConnInv(s) && WordInv(s) && IdleInv(s) && LeaveEnabled(s, a)
    ensures ConnInv(LeaveApply(s, a)) && WordInv(LeaveApply(s, a))
  {
  }

  lemma LeaveKeepsIdle(s: State, a: LeaveAction)
    requires MutexInv(s) && ConnInv(s) && WordInv(s) && IdleInv(s) && LeaveEnabled(s, a)
    ensures IdleInv(LeaveApply(s, a))
  {
  }

  lemma LeaveKeepsSuccess(s: State, a: LeaveAction)
    requires MutexInv(s) && TrackInv(s) && SweepInv(s) && ConnInv(s) && IdleInv(s) && SuccessInv(s) && LeaveEnabled(s, a)
    ensures SuccessInv(LeaveApply(s, a))
  {
  }

  lemma LeaveKeepsReport(s: State, a: LeaveAction)
    requires MutexInv(s) && OnceInv(s) && SweepInv(s) && ReportInv(s) && LeaveEnabled(s, a)
    ensures ReportInv(LeaveApply(s, a))
  {
  }

  lemma LeaveKeeps(s: State, a: LeaveAction)
    requires Inv(s) && LeaveEnabled(s, a)
    ensures Inv(LeaveApply(s, a))
  {
    LeaveKeepsMutex(s, a);
    LeaveKeepsTrack(s, a);
    LeaveKeepsCloses(s, a);
    LeaveKeepsCaught(s, a);
    LeaveKeepsVerdicts(s, a);
    LeaveKeepsConns(s, a);
    LeaveKeepsIdle(s, a);
    LeaveKeepsSuccess(s, a);
    LeaveKeepsReport(s, a);
  }

  // Shutdown's locked section

  lemma SweepKeepsMutex(s: State, a: SweepAction)
    requires MutexInv(s) && TrackInv(s) && SweepInv(s) && SweepEnabled(s, a)
    ensures MutexInv(SweepApply(s, a)) && TrackInv(SweepApply(s, a))
  {
  }

  lemma SweepKeepsCloses(s: State, a: SweepAction)
    requires MutexInv(s) && TrackInv(s) && OnceInv(s) && SweepInv(s) && SweepEnabled(s, a)
    ensures OnceInv(SweepApply(s, a)) && SweepInv(SweepApply(s, a))
  {
  }

  lemma SweepKeepsVerdicts(s: State, a: SweepAction)
    requires MutexInv(s) && TrackInv(s) && SweepInv(s) && CaughtInv(s) && VerdictInv(s) && SweepEnabled(s, a)
    ensures CaughtInv(SweepApply(s, a)) && VerdictInv(SweepApply(s, a))
  {
  }

  lemma SweepKeepsConns(s: State, a: SweepAction)
    requires ConnInv(s) && WordInv(s) && IdleInv(s) && SweepEnabled(s, a)
    ensures ConnInv(SweepApply(s, a)) && WordInv(SweepApply(s, a))
  {
  }

  lemma SweepKeepsIdle(s: State, a: SweepAction)
    requires MutexInv(s) && ConnInv(s) && WordInv(s) && IdleInv(s) && SweepEnabled(s, a)
    ensures IdleInv(SweepApply(s, a))
  {
  }

  lemma SweepKeepsSuccess(s: State, a: SweepAction)
    requires MutexInv(s) && TrackInv(s) && SweepInv(s) && ConnInv(s) && IdleInv(s) && SuccessInv(s) && SweepEnabled(s, a)
    ensures SuccessInv(SweepApply(s, a))
  {
  }

  lemma SweepKeepsReport(s: State, a: SweepAction)
    requires MutexInv(s) && OnceInv(s) && SweepInv(s) && ReportInv(s) && SweepEnabled(s, a)
    ensures ReportInv(SweepApply(s, a))
  {
  }

  lemma SweepKeeps(s: State, a: SweepAction)
    requires Inv(s) && SweepEnabled(s, a)
    ensures Inv(SweepApply(s, a))
  {
    SweepKeepsMutex(s, a);
    SweepKeepsCloses(s, a);
    SweepKeepsVerdicts(s, a);
    SweepKeepsConns(s, a);
    SweepKeepsIdle(s, a);
    SweepKeepsSuccess(s, a);
    SweepKeepsReport(s, a);
  }

  // Shutdown's polling

  /** A word that reads as idle or stale has been written, and meant that. */
  lemma DoomedConn(s: State, c: nat)
    requires WordInv(s) && Doomed(s.Word(c), s.now)
    ensures c in s.words && c in s.meant
    ensures s.meant[c].1.StateIdle? || (s.meant[c].1.StateNew? && s.meant[c].0 < s.now - 5)
  {
    UnwrittenWordIsKept(s.now);
    DoomedMeans(s.meant[c].0, s.meant[c].1, s.now);
  }

  lemma PollKeepsMutex(s: State, a: PollAction)
    requires MutexInv(s) && TrackInv(s) && SweepInv(s) && PollEnabled(s, a)
    ensures MutexInv(PollApply(s, a)) && TrackInv(PollApply(s, a))
  {
  }

  lemma PollKeepsCloses(s: State, a: PollAction)
    requires MutexInv(s) && TrackInv(s) && OnceInv(s) && SweepInv(s) && PollEnabled(s, a)
    ensures OnceInv(PollApply(s, a)) && SweepInv(PollApply(s, a))
  {
  }

  lemma PollKeepsVerdicts(s: State, a: PollAction)
    requires MutexInv(s) && TrackInv(s) && SweepInv(s) && CaughtInv(s) && VerdictInv(s) && PollEnabled(s, a)
    ensures CaughtInv(PollApply(s, a)) && VerdictInv(PollApply(s, a))
  {
  }

  lemma PollKeepsConns(s: State, a: PollAction)
    requires ConnInv(s) && WordInv(s) && IdleInv(s) && PollEnabled(s, a)
    ensures ConnInv(PollApply(s, a)) && WordInv(PollApply(s, a))
  {
  }

  lemma PollKeepsIdle(s: State, a: PollAction)
    requires MutexInv(s) && ConnInv(s) && WordInv(s) && IdleInv(s) && PollEnabled(s, a)
    ensures IdleInv(PollApply(s, a))
  {
    PollKeepsDoom(s, a);
    PollKeepsVisit(s, a);
  }

  lemma PollKeepsDoom(s: State, a: PollAction)
    requires WordInv(s) && DoomInv(s) && PollEnabled(s, a)
    ensures DoomInv(PollApply(s, a))
  {
    if a.VisitConn? && Doomed(s.Word(a.c), s.now) {
      DoomedConn(s, a.c);
    }
  }

  lemma PollKeepsVisit(s: State, a: PollAction)
    requires MutexInv(s) && VisitInv(s) && PollEnabled(s, a)
    ensures VisitInv(PollApply(s, a))
  {
  }

  lemma PollKeepsSuccess(s: State, a: PollAction)
    requires MutexInv(s) && TrackInv(s) && SweepInv(s) && ConnInv(s) && IdleInv(s) && SuccessInv(s) && PollEnabled(s, a)
    ensures SuccessInv(PollApply(s, a))
  {
  }

  lemma PollKeepsReport(s: State, a: PollAction)
    requires MutexInv(s) && OnceInv(s) && SweepInv(s) && ReportInv(s) && PollEnabled(s, a)
    ensures ReportInv(PollApply(s, a))
  {
  }

  lemma PollKeeps(s: State, a: PollAction)
    requires Inv(s) && PollEnabled(s, a)
    ensures Inv(PollApply(s, a))
  {
    PollKeepsMutex(s, a);
    PollKeepsCloses(s, a);
    PollKeepsVerdicts(s, a);
    PollKeepsConns(s, a);
    PollKeepsIdle(s, a);
    PollKeepsSuccess(s, a);
    PollKeepsReport(s, a);
  }

  // connections and the clock

  lemma ConnKeepsMutex(s: State, a: ConnAction)
    requires MutexInv(s) && TrackInv(s) && SweepInv(s) && ConnEnabled(s, a)
    ensures MutexInv(ConnApply(s, a)) && TrackInv(ConnApply(s, a))
  {
  }

  lemma ConnKeepsCloses(s: State, a: ConnAction)
    requires MutexInv(s) && TrackInv(s) && OnceInv(s) && SweepInv(s) && ConnEnabled(s, a)
    ensures OnceInv(ConnApply(s, a)) && SweepInv(ConnApply(s, a))
  {
  }

  lemma ConnKeepsVerdicts(s: State, a: ConnAction)
    requires MutexInv(s) && TrackInv(s) && SweepInv(s) && CaughtInv(s) && VerdictInv(s) && ConnEnabled(s, a)
    ensures CaughtInv(ConnApply(s, a)) && VerdictInv(ConnApply(s, a))
  {
  }

  lemma ConnKeepsConns(s: State, a: ConnAction)
    requires ConnInv(s) && WordInv(s) && IdleInv(s) && ConnEnabled(s, a)
    ensures ConnInv(ConnApply(s, a)) && WordInv(ConnApply(s, a))
  {
  }

  lemma ConnKeepsIdle(s: State, a: ConnAction)
    requires MutexInv(s) && ConnInv(s) && WordInv(s) && IdleInv(s) && ConnEnabled(s, a)
    ensures IdleInv(ConnApply(s, a))
  {
  }

  lemma ConnKeepsSuccess(s: State, a: ConnAction)
    requires MutexInv(s) && TrackInv(s) && SweepInv(s) && ConnInv(s) && IdleInv(s) && SuccessInv(s) && ConnEnabled(s, a)
    ensures SuccessInv(ConnApply(s, a))
  {
  }

  lemma ConnKeepsReport(s: State, a: ConnAction)
    requires MutexInv(s) && OnceInv(s) && SweepInv(s) && ReportInv(s) && ConnEnabled(s, a)
    ensures ReportInv(ConnApply(s, a))
  {
  }

  lemma ConnKeeps(s: State, a: ConnAction)
    requires Inv(s) && ConnEnabled(s, a)
    ensures Inv(ConnApply(s, a))
  {
    ConnKeepsMutex(s, a);
    ConnKeepsCloses(s, a);
    ConnKeepsVerdicts(s, a);
    ConnKeepsConns(s, a);
    ConnKeepsIdle(s, a);
    ConnKeepsSuccess(s, a);
    ConnKeepsReport(s, a);
  }

  lemma Keeps(s: State, a: Action)
    requires Inv(s) && Enabled(s, a)
    ensures Inv(Apply(s, a))
  {
    match a
    case Enter(x) => EnterKeeps(s, x);
    case Accept(x) => AcceptKeeps(s, x);
    case Leave(x) => LeaveKeeps(s, x);
    case Sweep(x) => SweepKeeps(s, x);
    case Poll(x) => PollKeeps(s, x);
    case Traffic(x) => ConnKeeps(s, x);
  }

  /** Every state that any run reaches keeps the invariants. */
  lemma {:induction false} RunKeeps(s: State, run: seq<Action>)
    requires Inv(s) && Run(s, run)
    ensures Inv(End(s, run))
    decreases |run|
  {
    if run != [] {
      Keeps(s, run[0]);
      RunKeeps(Apply(s, run[0]), run[1..]);
    }
  }

  // ---- What never comes back ----

  ghost predicate NoOtherVerdict(s: State, l: nat)
  {
    l in s.serves && s.serves[l].HasVerdict() ==> s.serves[l].verdict.ServerClosed?
  }

  /** A Serve that is not in the loop and will be refused, or has been. */
  ghost predicate ShutOut(s: State, l: nat)
  {
    s.inShutdown && (l in s.serves ==>
      s.serves[l].Fresh? || s.serves[l] == Closing(ServerClosed, Refused) || s.serves[l] == Returned(ServerClosed, Refused))
  }

  /**
   * A step from `s` to `n` takes none of these back: a closed done channel, with the listeners only getting
   * fewer and verdicts being ErrServerClosed from there on, and the refusal of late Serve calls.
   */
  ghost predicate Monotone(s: State, n: State, l: nat)
  {
    && (s.done.ClosedChan? ==> n.done.ClosedChan? && (NoOtherVerdict(s, l) ==> NoOtherVerdict(n, l)))
    && (s.done.ClosedChan? && SweepInv(s) ==> n.listeners <= s.listeners)
    && (ShutOut(s, l) ==> ShutOut(n, l))
  }

  lemma EnterIsMonotone(s: State, a: EnterAction, l: nat)
    requires EnterEnabled(s, a)
    ensures Monotone(s, EnterApply(s, a), l)
  {
  }

  lemma AcceptIsMonotone(s: State, a: AcceptAction, l: nat)
    requires AcceptEnabled(s, a)
    ensures Monotone(s, AcceptApply(s, a), l)
  {
  }

  lemma LeaveIsMonotone(s: State, a: LeaveAction, l: nat)
    requires LeaveEnabled(s, a)
    ensures Monotone(s, LeaveApply(s, a), l)
  {
  }

  lemma SweepIsMonotone(s: State, a: SweepAction, l: nat)
    requires SweepEnabled(s, a)
    ensures Monotone(s, SweepApply(s, a), l)
  {
    assert SweepApply(s, a).serves == s.serves && SweepApply(s, a).listeners == s.listeners;
  }

  lemma PollIsMonotone(s: State, a: PollAction, l: nat)
    requires PollEnabled(s, a)
    ensures Monotone(s, PollApply(s, a), l)
  {
    assert PollApply(s, a).serves == s.serves && PollApply(s, a).listeners == s.listeners;
  }

  lemma ConnIsMonotone(s: State, a: ConnAction, l: nat)
    requires ConnEnabled(s, a)
    ensures Monotone(s, ConnApply(s, a), l)
  {
    assert ConnApply(s, a).serves == s.serves && ConnApply(s, a).listeners == s.listeners;
  }

  lemma IsMonotone(s: State, a: Action, l: nat)
    requires Enabled(s, a)
    ensures Monotone(s, Apply(s, a), l)
  {
    match a
    case Enter(x) => EnterIsMonotone(s, x, l);
    case Accept(x) => AcceptIsMonotone(s, x, l);
    case Leave(x) => LeaveIsMonotone(s, x, l);
    case Sweep(x) => SweepIsMonotone(s, x, l);
    case Poll(x) => PollIsMonotone(s, x, l);
    case Traffic(x) => ConnIsMonotone(s, x, l);
  }

  // ---- No listener escapes a Shutdown ----

  /** From a closed done channel on, no step adds a listener or opens the channel again. */
  lemma {:induction false} ClosedForGood(s: State, run: seq<Action>)
    requires Inv(s) && s.done.ClosedChan? && Run(s, run)
    ensures End(s, run).done.ClosedChan? && End(s, run).listeners <= s.listeners
    decreases |run|
  {
    if run != [] {
      Keeps(s, run[0]);
      IsMonotone(s, run[0], 0);
      ClosedForGood(Apply(s, run[0]), run[1..]);
    }
  }

  /**
   * Once any Shutdown has left its locked section, in any run: every listener still tracked is closed, and
   * however the run goes on, none is ever added, although the flag is set before mu is taken.
   */
  lemma NoListenerEscapes(run: seq<Action>, i: nat, more: seq<Action>)
    requires Run(INIT, run) && i in End(INIT, run).shuts && End(INIT, run).shuts[i].PastSweep()
    requires Run(End(INIT, run), more)
    ensures var s, later := End(INIT, run), End(End(INIT, run), more);
            && s.done.ClosedChan? && s.listeners <= s.closed
            && later.listeners <= s.listeners && later.listeners <= later.closed
  {
    InitInv();
    RunKeeps(INIT, run);
    var s := End(INIT, run);
    ClosedForGood(s, more);
    RunKeeps(s, more);
  }

  /** In any run the done channel is closed at most once, and so is each wrapped listener. */
  lemma EverythingClosesOnce(run: seq<Action>, l: nat)
    requires Run(INIT, run)
    ensures var s := End(INIT, run);
            && s.doneCloses <= 1 && (s.doneCloses == 1 <==> s.done.ClosedChan?)
            && s.innerCloses[l] <= 1 && (s.innerCloses[l] == 1 <==> l in s.closed)
  {
    InitInv();
    RunKeeps(INIT, run);
  }

  // ---- What Serve returns ----

  /**
   * A Serve that was refused, or whose Accept failed because its listener was closed, returns ErrServerClosed;
   * and no Serve returns it before a Shutdown was called.
   */
  lemma ServeVerdict(run: seq<Action>, l: nat)
    requires Run(INIT, run) && l in End(INIT, run).serves && End(INIT, run).serves[l].HasVerdict()
    ensures var s := End(INIT, run);
            && (!s.serves[l].cause.SocketFailure? ==> s.serves[l].verdict.ServerClosed?)
            && (s.serves[l].verdict.ServerClosed? ==> s.inShutdown && s.shuts != map[])
  {
    InitInv();
    RunKeeps(INIT, run);
  }

  lemma {:induction false} StillNoOtherVerdict(s: State, run: seq<Action>, l: nat)
    requires Inv(s) && s.done.ClosedChan? && Run(s, run) && NoOtherVerdict(s, l)
    ensures NoOtherVerdict(End(s, run), l)
    decreases |run|
  {
    if run != [] {
      Keeps(s, run[0]);
      IsMonotone(s, run[0], l);
      StillNoOtherVerdict(Apply(s, run[0]), run[1..], l);
    }
  }

  /** A Serve that had not made up its mind, or was not even called, when a Shutdown left its section returns ErrServerClosed. */
  lemma VerdictAfterShutdown(run: seq<Action>, i: nat, more: seq<Action>, l: nat)
    requires Run(INIT, run) && i in End(INIT, run).shuts && End(INIT, run).shuts[i].PastSweep()
    requires l in End(INIT, run).serves ==> !End(INIT, run).serves[l].HasVerdict()
    requires Run(End(INIT, run), more)
    ensures NoOtherVerdict(End(End(INIT, run), more), l)
  {
    InitInv();
    RunKeeps(INIT, run);
    StillNoOtherVerdict(End(INIT, run), more, l);
  }

  /** A Serve called after a Shutdown was called never accepts anything and returns ErrServerClosed if it returns. */
  lemma {:induction false} LateServeIsRefused(s: State, run: seq<Action>, l: nat)
    requires Run(s, run) && ShutOut(s, l)
    ensures ShutOut(End(s, run), l)
    decreases |run|
  {
    if run != [] {
      IsMonotone(s, run[0], l);
      LateServeIsRefused(Apply(s, run[0]), run[1..], l);
    }
  }

  // ---- A successful Shutdown ----

  ghost predicate NoLoopRuns(s: State)
  {
    && s.done.ClosedChan? && s.listeners == {}
    && forall l :: l in s.serves ==> !s.serves[l].InLoop() && !s.serves[l].Adding?
  }

  /** The new state has no loop either and tracks no more connections. */
  ghost predicate StillNoLoop(s: State, n: State)
  {
    NoLoopRuns(n) && n.activeConn <= s.activeConn
  }

  lemma NoLoopEnter(s: State, a: EnterAction)
    requires SweepInv(s) && NoLoopRuns(s) && EnterEnabled(s, a)
    ensures StillNoLoop(s, EnterApply(s, a))
  {
  }

  lemma NoLoopAccept(s: State, a: AcceptAction)
    requires NoLoopRuns(s)
    ensures !AcceptEnabled(s, a)
  {
  }

  lemma NoLoopLeave(s: State, a: LeaveAction)
    requires NoLoopRuns(s) && LeaveEnabled(s, a)
    ensures StillNoLoop(s, LeaveApply(s, a))
  {
  }

  lemma NoLoopSweep(s: State, a: SweepAction)
    requires NoLoopRuns(s) && SweepEnabled(s, a)
    ensures StillNoLoop(s, SweepApply(s, a))
  {
  }

  lemma NoLoopPoll(s: State, a: PollAction)
    requires NoLoopRuns(s) && PollEnabled(s, a)
    ensures StillNoLoop(s, PollApply(s, a))
  {
  }

  lemma NoLoopTraffic(s: State, a: ConnAction)
    requires NoLoopRuns(s) && ConnEnabled(s, a)
    ensures StillNoLoop(s, ConnApply(s, a))
  {
  }

  lemma NoLoopStep(s: State, a: Action)
    requires SweepInv(s) && NoLoopRuns(s) && Enabled(s, a)
    ensures StillNoLoop(s, Apply(s, a))
  {
    match a
    case Enter(x) => NoLoopEnter(s, x);
    case Accept(x) => NoLoopAccept(s, x);
    case Leave(x) => NoLoopLeave(s, x);
    case Sweep(x) => NoLoopSweep(s, x);
    case Poll(x) => NoLoopPoll(s, x);
    case Traffic(x) => NoLoopTraffic(s, x);
  }

  lemma {:induction false} NoLoopForGood(s: State, run: seq<Action>)
    requires Inv(s) && NoLoopRuns(s) && Run(s, run)
    ensures NoLoopRuns(End(s, run)) && End(s, run).activeConn <= s.activeConn
    decreases |run|
  {
    if run != [] {
      Keeps(s, run[0]);
      NoLoopStep(s, run[0]);
      NoLoopForGood(Apply(s, run[0]), run[1..]);
    }
  }

  /**
   * When a Shutdown succeeds, every Serve that ever registered has left its loop, no Serve ever enters one
   * again, and no connection is ever tracked again. Still tracked can only be connections that were accepted
   * but not yet tracked when closeIdleConns found none; if there were none of those, none is left.
   */
  lemma SuccessfulShutdown(run: seq<Action>, i: nat, more: seq<Action>)
    requires Run(INIT, run) && i in End(INIT, run).shuts && End(INIT, run).shuts[i].Succeeded?
    requires Run(End(INIT, run), more)
    ensures var s, later := End(INIT, run), End(End(INIT, run), more);
            && NoLoopRuns(s) && NoLoopRuns(later)
            && later.activeConn <= s.activeConn <= s.shuts[i].gap
            && (s.shuts[i].gap == {} ==> later.activeConn == {})
  {
    InitInv();
    RunKeeps(INIT, run);
    NoLoopForGood(End(INIT, run), more);
  }

  /** A Shutdown past its section reports an error exactly if one of the listeners it found tracked failed to close. */
  lemma ReportIsExact(run: seq<Action>, i: nat)
    requires Run(INIT, run) && i in End(INIT, run).shuts && End(INIT, run).shuts[i].PastSweep()
    ensures var s := End(INIT, run);
            && s.shuts[i].r.seen <= s.closed
            && (s.shuts[i].r.err <==> exists l :: l in s.shuts[i].r.seen && l in s.closeErr)
  {
    InitInv();
    RunKeeps(INIT, run);
  }

  // ---- closeIdleConns ----

  /**
   * It answers yes exactly if no connection is tracked when it unlocks. What it is about to close was last read
   * as idle, or as new for more than five seconds, and a state had been stored; a connection that is tracked
   * with no state stored yet stays tracked.
   */
  lemma IdleCheckIsPrecise(run: seq<Action>, i: nat)
    requires Run(INIT, run) && i in End(INIT, run).shuts
    ensures var s := End(INIT, run);
            && (PollEnabled(s, UnlockIdle(i)) ==> (PollApply(s, UnlockIdle(i)).shuts[i].Quiet? <==> s.activeConn == {}))
            && (s.shuts[i].Dooming? ==>
                  && s.shuts[i].c in s.activeConn && s.shuts[i].c in s.words
                  && (s.shuts[i].state.StateIdle? || (s.shuts[i].state.StateNew? && s.shuts[i].unixSec < s.now - 5)))
            && (forall l :: l in s.serves && s.serves[l].Tracked? ==> s.serves[l].c in s.activeConn && s.serves[l].c !in s.words)
  {
    InitInv();
    RunKeeps(INIT, run);
  }

  /** No connection leaks: when its goroutine has ended, it is not tracked. */
  lemma EndedConnIsUntracked(run: seq<Action>, c: nat)
    requires Run(INIT, run) && c in End(INIT, run).conns && End(INIT, run).conns[c].Gone?
    ensures c !in End(INIT, run).activeConn
  {
    InitInv();
    RunKeeps(INIT, run);
  }

  // ---- Runs that show what is not promised ----

  lemma {:induction false} Extend(from: State, run: seq<Action>, s: State, a: Action)
    requires Run(from, run) && End(from, run) == s && Enabled(s, a)
    ensures Run(from, run + [a]) && End(from, run + [a]) == Apply(s, a)
    decreases |run|
  {
    if run == [] {
      assert (run + [a])[1..] == [];
    } else {
      Extend(Apply(from, run[0]), run[1..], s, a);
      assert (run + [a])[1..] == run[1..] + [a];
    }
  }

  /** One listener in its loop. */
  lemma OneLoop() returns (run: seq<Action>, s: State)
    ensures Run(INIT, run) && End(INIT, run) == s
    ensures s == INIT.(listeners := {0}, serves := map[0 := Accepting])
  {
    var s1 := Apply(INIT, Enter(ServeCall(0)));
    var s2 := Apply(s1, Enter(TrackCheck(0)));
    Extend(INIT, [], INIT, Enter(ServeCall(0)));
    run := [Enter(ServeCall(0))];
    Extend(INIT, run, s1, Enter(TrackCheck(0)));
    run := run + [Enter(TrackCheck(0))];
    Extend(INIT, run, s2, Enter(TrackAdd(0)));
    run := run + [Enter(TrackAdd(0))];
    s := Apply(s2, Enter(TrackAdd(0)));
    assert s.serves == map[0 := Accepting];
  }

  /**
   * Between the flag and the locked section a Serve can still return another error: Accept fails on its own
   * while the done channel is open.
   */
  lemma OtherErrorAfterShutdownCall() returns (run: seq<Action>)
    ensures Run(INIT, run)
    ensures var s := End(INIT, run); s.inShutdown && 0 in s.serves && s.serves[0] == Leaving(OtherError, SocketFailure(false))
  {
    var s;
    run, s := OneLoop();
    var s1 := Apply(s, Sweep(ShutdownCall(0)));
    var s2 := Apply(s1, Leave(AcceptFails(0, false)));
    var s3 := Apply(s2, Leave(GetDone(0)));
    Extend(INIT, run, s, Sweep(ShutdownCall(0)));
    run := run + [Sweep(ShutdownCall(0))];
    Extend(INIT, run, s1, Leave(AcceptFails(0, false)));
    run := run + [Leave(AcceptFails(0, false))];
    Extend(INIT, run, s2, Leave(GetDone(0)));
    run := run + [Leave(GetDone(0))];
    Extend(INIT, run, s3, Leave(Select(0)));
    run := run + [Leave(Select(0))];
  }

  /** From a state with one open listener and mu free, a Shutdown runs its whole locked section. */
  lemma Swept(run: seq<Action>, s: State) returns (run': seq<Action>, s': State)
    requires Run(INIT, run) && End(INIT, run) == s
    requires s.listeners == {0} && s.mu == Free && 0 !in s.closed && 0 !in s.closeErr && s.shuts == map[] && s.done.NilChan?
    ensures Run(INIT, run') && End(INIT, run') == s'
    ensures s' == s.(inShutdown := true, closed := s.closed + {0}, innerCloses := s.innerCloses + multiset{0},
                     done := ClosedChan, doneCloses := s.doneCloses + 1,
                     shuts := map[0 := Polling(Report({0}, false))])
  {
    var s2;
    run', s2 := Locked(run, s);
    var s3 := Apply(s2, Sweep(CloseListener(0, 0, false)));
    Extend(INIT, run', s2, Sweep(CloseListener(0, 0, false)));
    run' := run' + [Sweep(CloseListener(0, 0, false))];
    assert {0} - {0} == {};
    assert s3.shuts[0] == Sweeping(Report({0}, false), {});
    Extend(INIT, run', s3, Sweep(EndSweep(0)));
    run' := run' + [Sweep(EndSweep(0))];
    s' := Apply(s3, Sweep(EndSweep(0)));
    assert s'.shuts == map[0 := Polling(Report({0}, false))];
  }

  lemma Locked(run: seq<Action>, s: State) returns (run': seq<Action>, s': State)
    requires Run(INIT, run) && End(INIT, run) == s
    requires s.listeners == {0} && s.mu == Free && s.shuts == map[]
    ensures Run(INIT, run') && End(INIT, run') == s'
    ensures s' == s.(inShutdown := true, mu := ByShutdown(0), shuts := map[0 := Sweeping(Report({0}, false), {0})])
  {
    var s1 := Apply(s, Sweep(ShutdownCall(0)));
    Extend(INIT, run, s, Sweep(ShutdownCall(0)));
    run' := run + [Sweep(ShutdownCall(0))];
    Extend(INIT, run', s1, Sweep(LockSweep(0)));
    run' := run' + [Sweep(LockSweep(0))];
    s' := Apply(s1, Sweep(LockSweep(0)));
    assert s'.shuts == map[0 := Sweeping(Report({0}, false), {0})];
  }

  /**
   * Shutdown can succeed while a connection is still tracked and served: it was accepted before, and tracked
   * after closeIdleConns had found none and before the listeners were counted.
   */
  lemma SuccessCanLeaveConnection() returns (run: seq<Action>)
    ensures Run(INIT, run)
    ensures var s := End(INIT, run);
            0 in s.shuts && s.shuts[0].Succeeded? && s.activeConn == {0} && 0 in s.conns && s.conns[0] == Serving && s.rwcClosed == {}
  {
    var s;
    run, s := OneLoop();
    Extend(INIT, run, s, Accept(AcceptOk(0, 0)));
    run, s := run + [Accept(AcceptOk(0, 0))], Apply(s, Accept(AcceptOk(0, 0)));
    run, s := Swept(run, s);
    Extend(INIT, run, s, Poll(LockIdle(0)));
    run, s := run + [Poll(LockIdle(0))], Apply(s, Poll(LockIdle(0)));
    Extend(INIT, run, s, Poll(UnlockIdle(0)));
    run, s := run + [Poll(UnlockIdle(0))], Apply(s, Poll(UnlockIdle(0)));
    assert s.shuts[0].Quiet? && s.activeConn == {} && s.mu == Free;
    run, s := LoopEndsAfterTracking(run, s);
    Extend(INIT, run, s, Poll(CountListeners(0)));
    run := run + [Poll(CountListeners(0))];
  }

  lemma LoopEndsAfterTracking(run: seq<Action>, s: State) returns (run': seq<Action>, s': State)
    requires Run(INIT, run) && End(INIT, run) == s
    requires s.mu == Free && s.listeners == {0} && 0 in s.closed && s.done.ClosedChan? && s.activeConn == {} && s.rwcClosed == {}
    requires 0 in s.serves && s.serves[0] == Accepted(0)
    ensures Run(INIT, run') && End(INIT, run') == s'
    ensures s'.mu == Free && s'.listeners == {} && s'.activeConn == {0} && s'.shuts == s.shuts && s'.rwcClosed == {}
    ensures 0 in s'.conns && s'.conns[0] == Serving
  {
    run', s' := run, s;
    Extend(INIT, run', s', Accept(TrackConn(0)));
    run', s' := run' + [Accept(TrackConn(0))], Apply(s', Accept(TrackConn(0)));
    Extend(INIT, run', s', Accept(StoreNew(0)));
    run', s' := run' + [Accept(StoreNew(0))], Apply(s', Accept(StoreNew(0)));
    Extend(INIT, run', s', Leave(AcceptFails(0, false)));
    run', s' := run' + [Leave(AcceptFails(0, false))], Apply(s', Leave(AcceptFails(0, false)));
    Extend(INIT, run', s', Leave(GetDone(0)));
    run', s' := run' + [Leave(GetDone(0))], Apply(s', Leave(GetDone(0)));
    Extend(INIT, run', s', Leave(Select(0)));
    run', s' := run' + [Leave(Select(0))], Apply(s', Leave(Select(0)));
    Extend(INIT, run', s', Leave(Untrack(0)));
    run', s' := run' + [Leave(Untrack(0))], Apply(s', Leave(Untrack(0)));
  }

  /**
   * And closeIdleConns can close a connection that is active by then: its word was read as new and stale, and
   * the connection's goroutine stored the active state before the close.
   */
  lemma ActiveConnectionCanBeClosed() returns (run: seq<Action>)
    ensures Run(INIT, run)
    ensures var s := End(INIT, run);
            0 in s.conns && s.conns[0] == Serving && 0 in s.meant && s.meant[0].1 == StateActive && s.rwcClosed == {0}
  {
    var s;
    run, s := OneLoop();
    run, s := StaleConnection(run, s);
    run, s := Swept(run, s);
    Extend(INIT, run, s, Poll(LockIdle(0)));
    run, s := run + [Poll(LockIdle(0))], Apply(s, Poll(LockIdle(0)));
    DoomedMeans(1, StateNew, 7);
    Extend(INIT, run, s, Poll(VisitConn(0, 0)));
    run, s := run + [Poll(VisitConn(0, 0))], Apply(s, Poll(VisitConn(0, 0)));
    Extend(INIT, run, s, Traffic(ConnStore(0, StateActive)));
    run, s := run + [Traffic(ConnStore(0, StateActive))], Apply(s, Traffic(ConnStore(0, StateActive)));
    Extend(INIT, run, s, Poll(CloseDoomed(0)));
    run := run + [Poll(CloseDoomed(0))];
  }

  /** A connection that has been new for six seconds. */
  lemma StaleConnection(run: seq<Action>, s: State) returns (run': seq<Action>, s': State)
    requires Run(INIT, run) && End(INIT, run) == s
    requires s == INIT.(listeners := {0}, serves := map[0 := Accepting])
    ensures Run(INIT, run') && End(INIT, run') == s'
    ensures s' == s.(activeConn := {0}, words := map[0 := Pack(1, StateNew)], meant := map[0 := (1, StateNew)],
                     conns := map[0 := Serving], now := 7)
  {
    run', s' := run, s;
    Extend(INIT, run', s', Accept(AcceptOk(0, 0)));
    run', s' := run' + [Accept(AcceptOk(0, 0))], Apply(s', Accept(AcceptOk(0, 0)));
    Extend(INIT, run', s', Accept(TrackConn(0)));
    run', s' := run' + [Accept(TrackConn(0))], Apply(s', Accept(TrackConn(0)));
    Extend(INIT, run', s', Accept(StoreNew(0)));
    run', s' := run' + [Accept(StoreNew(0))], Apply(s', Accept(StoreNew(0)));
    Extend(INIT, run', s', Traffic(Advance(6)));
    run', s' := run' + [Traffic(Advance(6))], Apply(s', Traffic(Advance(6)));
    assert s'.serves == s.serves && s'.conns == map[0 := Serving];
    assert s'.words == map[0 := Pack(1, StateNew)] && s'.meant == map[0 := (1, StateNew)];
  }
}
