/** What is true when a Serve has returned and when a connection's goroutine has ended. */
module ServerEnds {
  import opened ConnStates
  import opened ServerProtocol
  import opened ServerGuarantees

  /**
   * A returned Serve has closed its listener, and an ending connection its socket; its last stored state is closed.
   * A loop that is about to select on the done channel has one.
   */
  ghost predicate EndsInv(s: State)
  {
    && (forall l :: l in s.serves && s.serves[l].Returned? ==> l in s.closed)
    && (forall c :: c in s.conns && !s.conns[c].Pending? && !s.conns[c].Serving? ==> c in s.rwcClosed)
    && (forall c :: c in s.conns && s.conns[c].Gone? ==> c in s.meant && s.meant[c].1.StateClosed?)
    && (forall l :: l in s.serves && s.serves[l].Selecting? ==> !s.done.NilChan?)
  }

  lemma EndsEnter(s: State, a: EnterAction)
    requires EndsInv(s) && EnterEnabled(s, a)
    ensures EndsInv(EnterApply(s, a))
  {
  }

  lemma EndsAccept(s: State, a: AcceptAction)
    requires ConnInv(s) && EndsInv(s) && AcceptEnabled(s, a)
    ensures EndsInv(AcceptApply(s, a))
  {
  }

  lemma EndsLeave(s: State, a: LeaveAction)
    requires EndsInv(s) && LeaveEnabled(s, a)
    ensures EndsInv(LeaveApply(s, a))
  {
  }

  lemma EndsSweep(s: State, a: SweepAction)
    requires EndsInv(s) && SweepEnabled(s, a)
    ensures EndsInv(SweepApply(s, a))
  {
  }

  lemma EndsPoll(s: State, a: PollAction)
    requires EndsInv(s) && PollEnabled(s, a)
    ensures EndsInv(PollApply(s, a))
  {
  }

  lemma EndsTraffic(s: State, a: ConnAction)
    requires EndsInv(s) && ConnEnabled(s, a)
    ensures EndsInv(ConnApply(s, a))
  {
  }

  lemma EndsStep(s: State, a: Action)
    requires ConnInv(s) && EndsInv(s) && Enabled(s, a)
    ensures EndsInv(Apply(s, a))
  {
    match a
    case Enter(x) => EndsEnter(s, x);
    case Accept(x) => EndsAccept(s, x);
    case Leave(x) => EndsLeave(s, x);
    case Sweep(x) => EndsSweep(s, x);
    case Poll(x) => EndsPoll(s, x);
    case Traffic(x) => EndsTraffic(s, x);
  }

  lemma {:induction false} RunKeepsEnds(s: State, run: seq<Action>)
    requires Inv(s) && EndsInv(s) && Run(s, run)
    ensures EndsInv(End(s, run))
    decreases |run|
  {
    if run != [] {
      Keeps(s, run[0]);
      EndsStep(s, run[0]);
      RunKeepsEnds(Apply(s, run[0]), run[1..]);
    }
  }

  /** After any run: a Serve that has returned, with whatever verdict and cause, has its inner listener closed exactly once. */
  lemma ReturnedServeHasClosed(run: seq<Action>, l: nat)
    requires Run(INIT, run) && l in End(INIT, run).serves && End(INIT, run).serves[l].Returned?
    ensures End(INIT, run).innerCloses[l] == 1 && l !in End(INIT, run).listeners
  {
    InitInv();
    RunKeeps(INIT, run);
    RunKeepsEnds(INIT, run);
  }

  /** A connection that is tracked with no state stored yet reads as new at time 0, and is not doomed at any time. */
  lemma UnwrittenReadsNew(run: seq<Action>, l: nat, now: int)
    requires Run(INIT, run) && l in End(INIT, run).serves && End(INIT, run).serves[l].Tracked?
    ensures var s := End(INIT, run);
            var c := s.serves[l].c;
            && c in s.activeConn && c !in s.words
            && Unpack(s.Word(c)) == (StateNew.Code(), 0) && !Doomed(s.Word(c), now)
  {
    InitInv();
    RunKeeps(INIT, run);
  }

  /** A Serve never selects on a nil channel, which would take the default branch for ever. */
  lemma SelectHasChannel(run: seq<Action>, l: nat)
    requires Run(INIT, run) && l in End(INIT, run).serves && End(INIT, run).serves[l].Selecting?
    ensures !End(INIT, run).done.NilChan?
  {
    InitInv();
    RunKeepsEnds(INIT, run);
  }

  /** A connection whose goroutine has ended is not tracked, its socket is closed, and closed is the state stored last. */
  lemma EndedConnIsClosed(run: seq<Action>, c: nat)
    requires Run(INIT, run) && c in End(INIT, run).conns && End(INIT, run).conns[c].Gone?
    ensures var s := End(INIT, run);
            && c !in s.activeConn && c in s.rwcClosed
            && c in s.words && c in s.meant && s.words[c] == Pack(s.meant[c].0, StateClosed)
  {
    InitInv();
    RunKeeps(INIT, run);
    RunKeepsEnds(INIT, run);
  }

  /**
   * A loop that comes back to Accept on a listener that has been closed, by any Shutdown, in any run, returns
   * ErrServerClosed or nothing, whatever Accept reports.
   */
  lemma ClosedListenerSettles(run: seq<Action>, l: nat, more: seq<Action>)
    requires Run(INIT, run) && l in End(INIT, run).serves && End(INIT, run).serves[l].Accepting?
    requires l in End(INIT, run).closed && Run(End(INIT, run), more)
    ensures NoOtherVerdict(End(End(INIT, run), more), l)
  {
    InitInv();
    RunKeeps(INIT, run);
    assert Settled(End(INIT, run), l);
    SettledForGood(End(INIT, run), more, l);
  }

  /** Why an Accept failed is told truly: its listener had been closed, or else the socket failed. */
  lemma CauseIsTrue(s: State, l: nat, temporary: bool)
    requires LeaveEnabled(s, AcceptFails(l, temporary))
    ensures var n := LeaveApply(s, AcceptFails(l, temporary));
            && n.serves[l].Failed?
            && (n.serves[l].cause.ListenerClosed? <==> l in s.closed)
            && (n.serves[l].cause == SocketFailure(temporary) <==> l !in s.closed)
  {
  }

  // ---- How a Shutdown polls ----

  /** 1 from the beginning of a check of Shutdown `i` until the next tick, 0 otherwise. */
  function Phase(shuts: map<nat, ShutPc>, i: nat): int
  {
    if i in shuts && !shuts[i].Flagged? && !shuts[i].Sweeping? && !shuts[i].Polling? then 1 else 0
  }

  lemma EnterLeavesShutdowns(s: State, a: EnterAction)
    requires EnterEnabled(s, a)
    ensures EnterApply(s, a).shuts == s.shuts
  {
  }

  lemma AcceptLeavesShutdowns(s: State, a: AcceptAction)
    requires AcceptEnabled(s, a)
    ensures AcceptApply(s, a).shuts == s.shuts
  {
  }

  lemma LeaveLeavesShutdowns(s: State, a: LeaveAction)
    requires LeaveEnabled(s, a)
    ensures LeaveApply(s, a).shuts == s.shuts
  {
  }

  lemma TrafficLeavesShutdowns(s: State, a: ConnAction)
    requires ConnEnabled(s, a)
    ensures ConnApply(s, a).shuts == s.shuts
  {
  }

  lemma OthersLeaveShutdowns(s: State, a: Action)
    requires Enabled(s, a) && !a.Sweep? && !a.Poll?
    ensures Apply(s, a).shuts == s.shuts
  {
    match a
    case Enter(x) => EnterLeavesShutdowns(s, x);
    case Accept(x) => AcceptLeavesShutdowns(s, x);
    case Leave(x) => LeaveLeavesShutdowns(s, x);
    case Traffic(x) => TrafficLeavesShutdowns(s, x);
  }

  function Hit(b: bool): int
  {
    if b then 1 else 0
  }

  /** How often the run contains the action. */
  ghost function Times(run: seq<Action>, a: Action): int
  {
    if run == [] then 0 else Hit(run[0] == a) + Times(run[1..], a)
  }

  lemma PhaseStep(s: State, a: Action, i: nat)
    requires Enabled(s, a)
    ensures Phase(Apply(s, a).shuts, i) == Phase(s.shuts, i) + Hit(a == Poll(LockIdle(i))) - Hit(a == Poll(Tick(i)))
  {
    if a.Sweep? {
      PhaseSweep(s, a.sweep, i);
    } else if a.Poll? {
      PhasePoll(s, a.poll, i);
    } else {
      OthersLeaveShutdowns(s, a);
    }
  }

  lemma PhaseSweep(s: State, a: SweepAction, i: nat)
    requires SweepEnabled(s, a)
    ensures Phase(SweepApply(s, a).shuts, i) == Phase(s.shuts, i)
  {
  }

  lemma PhasePoll(s: State, a: PollAction, i: nat)
    requires PollEnabled(s, a)
    ensures Phase(PollApply(s, a).shuts, i) == Phase(s.shuts, i) + Hit(a == LockIdle(i)) - Hit(a == Tick(i))
  {
  }

  predicate HasExpired(shuts: map<nat, ShutPc>, i: nat)
  {
    i in shuts && shuts[i].Expired?
  }

  lemma ExpiredStep(s: State, a: Action, i: nat)
    requires Enabled(s, a)
    ensures HasExpired(Apply(s, a).shuts, i) <==> HasExpired(s.shuts, i) || a == Poll(Expire(i))
  {
    if a.Sweep? {
      ExpiredSweep(s, a.sweep, i);
    } else if a.Poll? {
      ExpiredPoll(s, a.poll, i);
    } else {
      OthersLeaveShutdowns(s, a);
    }
  }

  lemma ExpiredSweep(s: State, a: SweepAction, i: nat)
    requires SweepEnabled(s, a)
    ensures HasExpired(SweepApply(s, a).shuts, i) <==> HasExpired(s.shuts, i)
  {
  }

  lemma ExpiredPoll(s: State, a: PollAction, i: nat)
    requires PollEnabled(s, a)
    ensures HasExpired(PollApply(s, a).shuts, i) <==> HasExpired(s.shuts, i) || a == Expire(i)
  {
  }

  lemma {:induction false} RunPhase(s: State, run: seq<Action>, i: nat)
    requires Run(s, run)
    ensures Phase(End(s, run).shuts, i) == Phase(s.shuts, i) + Times(run, Poll(LockIdle(i))) - Times(run, Poll(Tick(i)))
    ensures HasExpired(End(s, run).shuts, i) <==> HasExpired(s.shuts, i) || Times(run, Poll(Expire(i))) > 0
    ensures Times(run, Poll(Expire(i))) >= 0
    decreases |run|
  {
    if run != [] {
      PhaseStep(s, run[0], i);
      ExpiredStep(s, run[0], i);
      RunPhase(Apply(s, run[0]), run[1..], i);
    }
  }

  /**
   * In every run a Shutdown checks once before its first wait and once after each tick: never twice without a tick
   * in between. It returns its context's error exactly if the context ended a wait, and so does not poll again.
   */
  lemma ShutdownPollsOncePerTick(run: seq<Action>, i: nat)
    requires Run(INIT, run) && i in End(INIT, run).shuts
    ensures var s := End(INIT, run);
            var checks, ticks := Times(run, Poll(LockIdle(i))), Times(run, Poll(Tick(i)));
            && (s.shuts[i].PastSweep() ==> checks == if s.shuts[i].Polling? then ticks else ticks + 1)
            && (!s.shuts[i].PastSweep() ==> checks == ticks)
            && (s.shuts[i].Expired? <==> Times(run, Poll(Expire(i))) > 0)
  {
    RunPhase(INIT, run, i);
  }
}
