/** Exactly from where on, and up to where, the server's promises hold: each as an equivalence over all continuations. */
module ServerGuarantees {
  import opened ConnStates
  import opened ServerProtocol

  lemma StepFirst(s: State, a: Action, rest: seq<Action>)
    requires Enabled(s, a) && Run(Apply(s, a), rest)
    ensures Run(s, [a] + rest) && End(s, [a] + rest) == End(Apply(s, a), rest)
  {
    assert ([a] + rest)[1..] == rest;
  }

  // ---- From where on Serve returns ErrServerClosed ----

  /** The done channel is closed, or a Shutdown holds mu and will close it before anyone else gets mu. */
  ghost predicate Committed(s: State)
  {
    s.done.ClosedChan? || (s.mu.ByShutdown? && s.mu.i in s.shuts && s.shuts[s.mu.i].Sweeping?)
  }

  /**
   * What decides that the Serve on `l` can return nothing but ErrServerClosed. Before it has looked at the flag,
   * the flag. In the loop, a commitment; but a loop that has the channel and is about to select on it, for an
   * error it would return, needs the channel closed.
   */
  ghost predicate Settled(s: State, l: nat)
  {
    if l !in s.serves || s.serves[l].Fresh? then s.inShutdown
    else if s.serves[l].HasVerdict() then s.serves[l].verdict.ServerClosed?
    else if s.serves[l].Selecting? && s.serves[l].cause != SocketFailure(true) then s.done.ClosedChan?
    else Committed(s)
  }

  lemma SettledStep(s: State, a: Action, l: nat)
    requires MutexInv(s) && TrackInv(s) && SweepInv(s) && Enabled(s, a) && Settled(s, l)
    ensures Settled(Apply(s, a), l)
  {
    match a
    case Enter(x) => SettledEnter(s, x, l);
    case Accept(x) => SettledAccept(s, x, l);
    case Leave(x) => SettledLeave(s, x, l);
    case Sweep(x) => SettledSweep(s, x, l);
    case Poll(x) => SettledPoll(s, x, l);
    case Traffic(x) => SettledTraffic(s, x, l);
  }

  lemma SettledEnter(s: State, a: EnterAction, l: nat)
    requires MutexInv(s) && TrackInv(s) && SweepInv(s) && EnterEnabled(s, a) && Settled(s, l)
    ensures Settled(EnterApply(s, a), l)
  {
  }

  lemma SettledAccept(s: State, a: AcceptAction, l: nat)
    requires AcceptEnabled(s, a) && Settled(s, l)
    ensures Settled(AcceptApply(s, a), l)
  {
  }

  lemma SettledLeave(s: State, a: LeaveAction, l: nat)
    requires LeaveEnabled(s, a) && Settled(s, l)
    ensures Settled(LeaveApply(s, a), l)
  {
  }

  lemma SettledSweep(s: State, a: SweepAction, l: nat)
    requires MutexInv(s) && SweepEnabled(s, a) && Settled(s, l)
    ensures Settled(SweepApply(s, a), l)
  {
  }

  lemma SettledPoll(s: State, a: PollAction, l: nat)
    requires MutexInv(s) && SweepInv(s) && PollEnabled(s, a) && Settled(s, l)
    ensures Settled(PollApply(s, a), l)
  {
  }

  lemma SettledTraffic(s: State, a: ConnAction, l: nat)
    requires ConnEnabled(s, a) && Settled(s, l)
    ensures Settled(ConnApply(s, a), l)
  {
  }

  lemma {:induction false} SettledForGood(s: State, run: seq<Action>, l: nat)
    requires Inv(s) && Run(s, run) && Settled(s, l)
    ensures NoOtherVerdict(End(s, run), l)
    decreases |run|
  {
    if run != [] {
      Keeps(s, run[0]);
      SettledStep(s, run[0], l);
      SettledForGood(Apply(s, run[0]), run[1..], l);
    }
  }

  /** How far a Serve is from a verdict. */
  function PcDistance(pc: ServePc): nat
  {
    match pc
    case Fresh => 6
    case Adding => 4
    case Accepting => 3
    case Failed(cause) => if cause == SocketFailure(true) then 6 else 2
    case Selecting(cause) => if cause == SocketFailure(true) then 5 else 1
    case Accepted(_) => 5
    case Tracked(_) => 4
    case _ => 0
  }

  /** The same for the Serve on `l`, with one step more while mu is held. */
  ghost function Distance(s: State, l: nat): nat
  {
    (if s.mu.Free? then 0 else 1) + 2 * (if l in s.serves then PcDistance(s.serves[l]) else 7)
  }

  /** A step towards another verdict. */
  ghost function TowardsOther(s: State, l: nat): Action
    requires !(l in s.serves && s.serves[l].HasVerdict())
  {
    if s.mu.ByServe? then Enter(TrackAdd(s.mu.l))
    else if l !in s.serves then Enter(ServeCall(l))
    else match s.serves[l]
      case Fresh => Enter(TrackCheck(l))
      case Adding => Enter(TrackAdd(l))
      case Accepting => Leave(AcceptFails(l, false))
      case Accepted(_) => Accept(TrackConn(l))
      case Tracked(_) => Accept(StoreNew(l))
      case Failed(_) => Leave(GetDone(l))
      case _ => Leave(Select(l))
  }

  /** The Serve has no verdict and is not settled; and what that means for mu: a Shutdown holds it only if it is not needed. */
  ghost predicate Open(s: State, l: nat)
  {
    && !(l in s.serves && s.serves[l].HasVerdict()) && !s.done.ClosedChan?
    && (s.mu.ByShutdown? ==> l in s.serves && s.serves[l].Selecting? && s.serves[l].cause != SocketFailure(true))
    && (s.mu.ByServe? ==> s.mu.l in s.serves && s.serves[s.mu.l].Adding?)
    && (l in s.serves && s.serves[l].Adding? ==> s.mu == ByServe(l))
    && (l !in s.serves || s.serves[l].Fresh? ==> !s.inShutdown)
  }

  lemma UnsettledIsOpen(s: State, l: nat)
    requires MutexInv(s) && TrackInv(s) && SweepInv(s)
    requires !Settled(s, l) && !(l in s.serves && s.serves[l].HasVerdict())
    ensures Open(s, l)
  {
  }

  /** The Serve is still unsettled and nearer to a verdict. */
  ghost predicate Nearer(s: State, n: State, l: nat)
  {
    !Settled(n, l) && Distance(n, l) < Distance(s, l)
  }

  lemma OpenEnter(s: State, l: nat)
    requires Open(s, l) && TowardsOther(s, l).Enter?
    ensures EnterEnabled(s, TowardsOther(s, l).enter) && Nearer(s, EnterApply(s, TowardsOther(s, l).enter), l)
  {
  }

  lemma OpenAccept(s: State, l: nat)
    requires Open(s, l) && TowardsOther(s, l).Accept?
    ensures AcceptEnabled(s, TowardsOther(s, l).accept) && Nearer(s, AcceptApply(s, TowardsOther(s, l).accept), l)
  {
  }

  lemma OpenLeave(s: State, l: nat)
    requires Open(s, l) && TowardsOther(s, l).Leave?
    ensures LeaveEnabled(s, TowardsOther(s, l).leave) && Nearer(s, LeaveApply(s, TowardsOther(s, l).leave), l)
  {
  }

  lemma UnsettledStep(s: State, l: nat)
    requires Open(s, l)
    ensures Enabled(s, TowardsOther(s, l)) && Nearer(s, Apply(s, TowardsOther(s, l)), l)
  {
    match TowardsOther(s, l)
    case Enter(_) => OpenEnter(s, l);
    case Accept(_) => OpenAccept(s, l);
    case Leave(_) => OpenLeave(s, l);
  }

  lemma {:induction false} OtherVerdict(s: State, l: nat) returns (run: seq<Action>)
    requires Inv(s) && !Settled(s, l)
    ensures Run(s, run) && !NoOtherVerdict(End(s, run), l)
    decreases Distance(s, l)
  {
    if l in s.serves && s.serves[l].HasVerdict() {
      run := [];
    } else {
      var a := TowardsOther(s, l);
      UnsettledIsOpen(s, l);
      UnsettledStep(s, l);
      Keeps(s, a);
      var rest := OtherVerdict(Apply(s, a), l);
      StepFirst(s, a, rest);
      run := [a] + rest;
    }
  }

  /**
   * From any reachable state, the Serve on `l` returns ErrServerClosed or nothing in every continuation if and
   * only if it is settled there. A loop in Accept is settled from the moment a Shutdown takes mu.
   */
  lemma VerdictIsSettledIff(run: seq<Action>, l: nat)
    requires Run(INIT, run)
    ensures var s := End(INIT, run);
            (forall more :: Run(s, more) ==> NoOtherVerdict(End(s, more), l)) <==> Settled(s, l)
  {
    InitInv();
    RunKeeps(INIT, run);
    var s := End(INIT, run);
    if Settled(s, l) {
      forall more | Run(s, more)
        ensures NoOtherVerdict(End(s, more), l)
      {
        SettledForGood(s, more, l);
      }
    } else {
      var more := OtherVerdict(s, l);
    }
  }

  // ---- When a Shutdown succeeds with a connection still tracked ----

  /** The channel is closed, and neither the connections in between nor those the check of `i` wrote down go beyond `g`. */
  ghost predicate GapWithin(s: State, i: nat, g: set<nat>)
  {
    && s.done.ClosedChan?
    && (forall c :: c in s.conns && s.conns[c].Pending? ==> c in g)
    && (i in s.shuts && (s.shuts[i].Quiet? || s.shuts[i].Succeeded?) ==> s.shuts[i].gap <= g)
  }

  /** No connection is accepted any more, so the gap never grows. */
  lemma GapStep(s: State, a: Action, i: nat, g: set<nat>)
    requires TrackInv(s) && SweepInv(s) && Enabled(s, a) && GapWithin(s, i, g)
    ensures GapWithin(Apply(s, a), i, g)
  {
    match a
    case Enter(x) => GapEnter(s, x, i, g);
    case Accept(x) => GapAccept(s, x, i, g);
    case Leave(x) => GapLeave(s, x, i, g);
    case Sweep(x) => GapSweep(s, x, i, g);
    case Poll(x) => GapPoll(s, x, i, g);
    case Traffic(x) => GapTraffic(s, x, i, g);
  }

  lemma GapEnter(s: State, a: EnterAction, i: nat, g: set<nat>)
    requires EnterEnabled(s, a) && GapWithin(s, i, g)
    ensures GapWithin(EnterApply(s, a), i, g)
  {
  }

  lemma GapAccept(s: State, a: AcceptAction, i: nat, g: set<nat>)
    requires TrackInv(s) && SweepInv(s) && AcceptEnabled(s, a) && GapWithin(s, i, g)
    ensures GapWithin(AcceptApply(s, a), i, g)
  {
  }

  lemma GapLeave(s: State, a: LeaveAction, i: nat, g: set<nat>)
    requires LeaveEnabled(s, a) && GapWithin(s, i, g)
    ensures GapWithin(LeaveApply(s, a), i, g)
  {
  }

  lemma GapSweep(s: State, a: SweepAction, i: nat, g: set<nat>)
    requires SweepEnabled(s, a) && GapWithin(s, i, g)
    ensures GapWithin(SweepApply(s, a), i, g)
  {
  }

  lemma GapPoll(s: State, a: PollAction, i: nat, g: set<nat>)
    requires PollEnabled(s, a) && GapWithin(s, i, g)
    ensures GapWithin(PollApply(s, a), i, g)
  {
  }

  lemma GapTraffic(s: State, a: ConnAction, i: nat, g: set<nat>)
    requires ConnEnabled(s, a) && GapWithin(s, i, g)
    ensures GapWithin(ConnApply(s, a), i, g)
  {
  }

  lemma {:induction false} GapForGood(s: State, run: seq<Action>, i: nat, g: set<nat>)
    requires Inv(s) && Run(s, run) && GapWithin(s, i, g)
    ensures Inv(End(s, run)) && GapWithin(End(s, run), i, g)
    decreases |run|
  {
    if run != [] {
      Keeps(s, run[0]);
      GapStep(s, run[0], i, g);
      GapForGood(Apply(s, run[0]), run[1..], i, g);
    }
  }

  /** Connection `c` is tracked, or its Serve loop is about to track it. */
  ghost predicate Held(s: State, c: nat)
  {
    c in s.activeConn || exists l :: l in s.serves && s.serves[l] == Accepted(c)
  }

  /** The steps on which a loop leaves when the done channel is closed, and how many are left. */
  ghost function WayOut(l: nat, pc: ServePc): Action
    requires pc.InLoop()
  {
    match pc
    case Accepted(_) => Accept(TrackConn(l))
    case Tracked(_) => Accept(StoreNew(l))
    case Accepting => Leave(AcceptFails(l, false))
    case Failed(_) => Leave(GetDone(l))
    case Selecting(_) => Leave(Select(l))
    case Leaving(_, _) => Leave(Untrack(l))
  }

  function StepsOut(pc: ServePc): nat
  {
    match pc
    case Accepted(_) => 6
    case Tracked(_) => 5
    case Accepting => 4
    case Failed(_) => 3
    case Selecting(_) => 2
    case _ => 1
  }

  /** The step keeps mu free, moves no Shutdown and lets go of no connection; the loop is out or nearer to it. */
  ghost predicate OneStepOut(s: State, n: State, l: nat, c: nat)
  {
    && n.done.ClosedChan? && n.mu.Free? && n.shuts == s.shuts && (Held(s, c) ==> Held(n, c))
    && (|| n.listeners == s.listeners - {l}
        || (n.listeners == s.listeners && l in s.serves && l in n.serves && StepsOut(n.serves[l]) < StepsOut(s.serves[l])))
  }

  lemma AcceptedStepsOut(s: State, l: nat, c: nat)
    requires s.done.ClosedChan? && s.mu.Free? && l in s.serves && s.serves[l].InLoop()
    requires WayOut(l, s.serves[l]).Accept?
    ensures AcceptEnabled(s, WayOut(l, s.serves[l]).accept)
    ensures OneStepOut(s, AcceptApply(s, WayOut(l, s.serves[l]).accept), l, c)
  {
    var n := AcceptApply(s, WayOut(l, s.serves[l]).accept);
    if k :| k in s.serves && s.serves[k] == Accepted(c) {
      assert k != l ==> n.serves[k] == Accepted(c);
    }
  }

  lemma LeavingKeepsHeld(s: State, a: LeaveAction, c: nat)
    requires LeaveEnabled(s, a) && Held(s, c)
    ensures Held(LeaveApply(s, a), c)
  {
    if k :| k in s.serves && s.serves[k] == Accepted(c) {
      assert LeaveApply(s, a).serves[k] == Accepted(c);
    }
  }

  lemma LeavingStepsOut(s: State, l: nat, c: nat)
    requires s.done.ClosedChan? && s.mu.Free? && l in s.serves && s.serves[l].InLoop()
    requires WayOut(l, s.serves[l]).Leave?
    ensures LeaveEnabled(s, WayOut(l, s.serves[l]).leave)
    ensures OneStepOut(s, LeaveApply(s, WayOut(l, s.serves[l]).leave), l, c)
  {
    if Held(s, c) {
      LeavingKeepsHeld(s, WayOut(l, s.serves[l]).leave, c);
    }
  }

  lemma StepsOutOfLoop(s: State, l: nat, c: nat)
    requires s.done.ClosedChan? && s.mu.Free? && l in s.serves && s.serves[l].InLoop()
    ensures Enabled(s, WayOut(l, s.serves[l])) && OneStepOut(s, Apply(s, WayOut(l, s.serves[l])), l, c)
  {
    match WayOut(l, s.serves[l])
    case Accept(_) => AcceptedStepsOut(s, l, c);
    case Leave(_) => LeavingStepsOut(s, l, c);
  }

  /** All loops leave, one after the other, and track what they have accepted. */
  lemma {:induction false} Drained(s: State, c: nat, l: nat) returns (run: seq<Action>)
    requires Inv(s) && s.done.ClosedChan? && s.mu.Free? && Held(s, c)
    requires s.listeners != {} ==> l in s.listeners
    ensures Run(s, run)
    ensures var n := End(s, run); n.listeners == {} && n.mu.Free? && n.shuts == s.shuts && c in n.activeConn
    decreases |s.listeners|, if l in s.serves then StepsOut(s.serves[l]) else 0
  {
    if s.listeners == {} {
      run := [];
    } else {
      StepsOutOfLoop(s, l, c);
      var a := WayOut(l, s.serves[l]);
      var n := Apply(s, a);
      Keeps(s, a);
      var next := if n.listeners == {} || l in n.listeners then l else PickFrom(n.listeners);
      var rest := Drained(n, c, next);
      StepFirst(s, a, rest);
      run := [a] + rest;
    }
  }

  ghost function PickFrom(s: set<nat>): (x: nat)
    requires s != {}
    ensures x in s
  {
    var x :| x in s;
    x
  }

  /** The Shutdown has succeeded with a connection tracked. */
  ghost predicate LeavesTracked(s: State, i: nat)
  {
    i in s.shuts && s.shuts[i].Succeeded? && s.activeConn != {}
  }

  ghost predicate RunLeavesTracked(s: State, run: seq<Action>, i: nat)
  {
    Run(s, run) && LeavesTracked(End(s, run), i)
  }

  lemma GapCanBeLeft(s: State, i: nat, c: nat) returns (run: seq<Action>)
    requires Inv(s) && i in s.shuts && s.shuts[i].Quiet? && s.mu.Free? && s.activeConn == {}
    requires c in s.conns && s.conns[c].Pending?
    ensures RunLeavesTracked(s, run, i)
  {
    assert Held(s, c) by {
      assert s.serves[s.conns[c].l] == Accepted(c);
    }
    var l := if s.listeners == {} then 0 else PickFrom(s.listeners);
    var drain := Drained(s, c, l);
    var n := End(s, drain);
    Extend(s, drain, n, Poll(CountListeners(i)));
    run := drain + [Poll(CountListeners(i))];
  }

  lemma NothingLeft(q: State, i: nat, more: seq<Action>)
    requires Inv(q) && i in q.shuts && q.shuts[i].Quiet? && q.shuts[i].gap == {} == q.Gap() && Run(q, more)
    ensures !RunLeavesTracked(q, more, i)
  {
    assert forall c :: c in q.conns && q.conns[c].Pending? ==> c in q.Gap();
    GapForGood(q, more, i, {});
  }

  /** What a quiet closeIdleConns leaves when it unlocks. */
  ghost predicate JustQuiet(q: State, i: nat)
  {
    i in q.shuts && q.shuts[i].Quiet? && q.mu.Free? && q.activeConn == {} && q.shuts[i].gap == q.Gap()
  }

  lemma QuietUnlock(s: State, i: nat)
    requires MutexInv(s) && VisitInv(s) && PollEnabled(s, UnlockIdle(i)) && s.shuts[i].quiescent
    ensures JustQuiet(PollApply(s, UnlockIdle(i)), i)
  {
    assert PollApply(s, UnlockIdle(i)).Gap() == s.Gap();
  }

  lemma JustQuietIff(q: State, i: nat)
    requires Inv(q) && JustQuiet(q, i)
    ensures (exists more :: RunLeavesTracked(q, more, i)) <==> q.shuts[i].gap != {}
  {
    if q.shuts[i].gap != {} {
      var c := PickFrom(q.Gap());
      var more := GapCanBeLeft(q, i, c);
    } else {
      forall more | Run(q, more)
        ensures !RunLeavesTracked(q, more, i)
      {
        NothingLeft(q, i, more);
      }
    }
  }

  /**
   * After any quiet closeIdleConns: its Shutdown can go on to succeed with a connection still tracked, at this
   * check or a later one, if and only if some connection was accepted but not yet tracked at that moment.
   */
  lemma SuccessCanLeaveConnectionIff(run: seq<Action>, i: nat)
    requires Run(INIT, run) && PollEnabled(End(INIT, run), UnlockIdle(i)) && End(INIT, run).shuts[i].quiescent
    ensures var q := PollApply(End(INIT, run), UnlockIdle(i));
            && JustQuiet(q, i)
            && ((exists more :: RunLeavesTracked(q, more, i)) <==> q.shuts[i].gap != {})
  {
    InitInv();
    RunKeeps(INIT, run);
    PollKeeps(End(INIT, run), UnlockIdle(i));
    QuietUnlock(End(INIT, run), i);
    JustQuietIff(PollApply(End(INIT, run), UnlockIdle(i)), i);
  }

  // ---- When closeIdleConns can close an active connection ----

  /** The goroutine of `c` has closed it, and the last state it stored is not the active one. */
  ghost predicate PastActive(s: State, c: nat)
  {
    && c in s.conns && !s.conns[c].Pending? && !s.conns[c].Serving?
    && c in s.meant && !s.meant[c].1.StateActive?
  }

  lemma PastActiveStep(s: State, a: Action, c: nat)
    requires ConnInv(s) && Enabled(s, a) && PastActive(s, c)
    ensures PastActive(Apply(s, a), c)
  {
    match a
    case Enter(_) =>
    case Accept(x) => PastActiveAccept(s, x, c);
    case Leave(_) =>
    case Sweep(x) => PastActiveSweep(s, x, c);
    case Poll(x) => PastActivePoll(s, x, c);
    case Traffic(x) => PastActiveTraffic(s, x, c);
  }

  lemma PastActiveAccept(s: State, a: AcceptAction, c: nat)
    requires ConnInv(s) && AcceptEnabled(s, a) && PastActive(s, c)
    ensures PastActive(AcceptApply(s, a), c)
  {
  }

  lemma PastActiveSweep(s: State, a: SweepAction, c: nat)
    requires SweepEnabled(s, a) && PastActive(s, c)
    ensures PastActive(SweepApply(s, a), c)
  {
  }

  lemma PastActivePoll(s: State, a: PollAction, c: nat)
    requires PollEnabled(s, a) && PastActive(s, c)
    ensures PastActive(PollApply(s, a), c)
  {
  }

  lemma PastActiveTraffic(s: State, a: ConnAction, c: nat)
    requires ConnEnabled(s, a) && PastActive(s, c)
    ensures PastActive(ConnApply(s, a), c)
  {
  }

  lemma {:induction false} PastActiveForGood(s: State, run: seq<Action>, c: nat)
    requires Inv(s) && Run(s, run) && PastActive(s, c)
    ensures PastActive(End(s, run), c)
    decreases |run|
  {
    if run != [] {
      Keeps(s, run[0]);
      PastActiveStep(s, run[0], c);
      PastActiveForGood(Apply(s, run[0]), run[1..], c);
    }
  }

  ghost predicate StoredActive(s: State, c: nat)
  {
    c in s.meant && s.meant[c].1.StateActive?
  }

  /** The next step of the check of `i` closes `c` although its state is the active one. */
  ghost predicate ClosesActive(s: State, i: nat, c: nat)
  {
    && PollEnabled(s, CloseDoomed(i)) && s.shuts[i].c == c && StoredActive(s, c)
    && c in PollApply(s, CloseDoomed(i)).rwcClosed
  }

  ghost predicate RunClosesActive(s: State, run: seq<Action>, i: nat, c: nat)
  {
    Run(s, run) && ClosesActive(End(s, run), i, c)
  }

  lemma DoomedConnStands(s: State, i: nat)
    requires ConnInv(s) && WordInv(s) && IdleInv(s) && i in s.shuts && s.shuts[i].Dooming?
    ensures var c := s.shuts[i].c; c in s.conns && c in s.meant && !s.conns[c].Pending?
  {
  }

  /** One store by a serving goroutine and the close hits the active state. */
  lemma StoreThenClose(s: State, i: nat) returns (more: seq<Action>)
    requires i in s.shuts && s.shuts[i].Dooming? && s.shuts[i].c in s.conns
    requires s.conns[s.shuts[i].c].Serving? || StoredActive(s, s.shuts[i].c)
    ensures RunClosesActive(s, more, i, s.shuts[i].c)
  {
    if StoredActive(s, s.shuts[i].c) {
      more := [];
    } else {
      var a := Traffic(ConnStore(s.shuts[i].c, StateActive));
      Extend(s, [], s, a);
      more := [] + [a];
    }
  }

  lemma DoomingIff(s: State, i: nat)
    requires Inv(s) && i in s.shuts && s.shuts[i].Dooming? && s.shuts[i].c in s.conns
    ensures var c := s.shuts[i].c;
            && ((exists more :: RunClosesActive(s, more, i, c)) <==>
                  s.conns[c].Serving? || StoredActive(s, c))
            && (!s.conns[c].Serving? && !StoredActive(s, c) ==> forall more :: Run(s, more) ==> !StoredActive(End(s, more), c))
  {
    var c := s.shuts[i].c;
    if s.conns[c].Serving? || StoredActive(s, c) {
      var more := StoreThenClose(s, i);
    } else {
      DoomedConnStands(s, i);
      forall more | Run(s, more)
        ensures !StoredActive(End(s, more), c)
      {
        PastActiveForGood(s, more, c);
      }
    }
  }

  /**
   * At any moment between the read of a connection's word and its close: the close can hit it in the active
   * state if and only if its goroutine still serves it or has stored that state already. Otherwise it is never
   * active again.
   */
  lemma ActiveConnectionCanBeClosedIff(run: seq<Action>, i: nat)
    requires Run(INIT, run) && i in End(INIT, run).shuts && End(INIT, run).shuts[i].Dooming?
    ensures var s := End(INIT, run);
            var c := s.shuts[i].c;
            && c in s.conns
            && ((exists more :: RunClosesActive(s, more, i, c)) <==>
                  s.conns[c].Serving? || StoredActive(s, c))
            && (!s.conns[c].Serving? && !StoredActive(s, c) ==> forall more :: Run(s, more) ==> !StoredActive(End(s, more), c))
  {
    InitInv();
    RunKeeps(INIT, run);
    DoomedConnStands(End(INIT, run), i);
    DoomingIff(End(INIT, run), i);
  }
}
