/**
 * The two critical sections that the protocol takes in several steps: run to their end, they do what the methods
 * of `Server` do in one go.
 */
module ServerSections {
  import opened ConnStates
  import opened Servers
  import opened ServerProtocol

  // ---- Shutdown's locked section ----

  /** A step that closes a listener for Shutdown `i`; an open listener fails as `fails` says. */
  predicate ClosesFor(a: Action, i: nat, fails: nat -> bool)
  {
    a.Sweep? && a.sweep.CloseListener? && a.sweep.i == i && a.sweep.fails == fails(a.sweep.l)
  }

  /** Between `s`, where the section began, and `m`: the listeners that are no longer to be closed have been. */
  ghost predicate SweptSoFar(s: State, m: State, i: nat, fails: nat -> bool)
  {
    && m.listeners == s.listeners && i in m.shuts && m.shuts[i].Sweeping?
    && m.shuts[i].todo <= s.listeners
    && (forall l :: l in s.listeners - m.shuts[i].todo ==>
          l in m.closed && (l in m.closeErr <==> if l in s.closed then l in s.closeErr else fails(l)))
    && (forall l :: l in m.shuts[i].todo ==>
          (l in m.closed <==> l in s.closed) && (l in m.closeErr <==> l in s.closeErr))
    && (m.shuts[i].r.err <==> exists l :: l in s.listeners - m.shuts[i].todo && l in m.closeErr)
  }

  lemma SweptStep(s: State, m: State, i: nat, fails: nat -> bool, a: SweepAction)
    requires OnceInv(s) && SweptSoFar(s, m, i, fails)
    requires SweepEnabled(m, a) && a.CloseListener? && a.i == i && a.fails == fails(a.l)
    ensures SweptSoFar(s, SweepApply(m, a), i, fails)
  {
    var n := SweepApply(m, a);
    assert s.listeners - n.shuts[i].todo == (s.listeners - m.shuts[i].todo) + {a.l};
    assert forall l :: l != a.l ==> (l in n.closeErr <==> l in m.closeErr);
    if m.shuts[i].r.err {
      var l :| l in s.listeners - m.shuts[i].todo && l in m.closeErr;
      assert l in s.listeners - n.shuts[i].todo && l in n.closeErr;
    }
    if l :| l in s.listeners - n.shuts[i].todo && l in n.closeErr {
      assert l == a.l || l in s.listeners - m.shuts[i].todo;
    }
  }

  lemma SweptEnd(s: State, m: State, i: nat, fails: nat -> bool)
    requires SweptSoFar(s, m, i, fails) && SweepEnabled(m, EndSweep(i))
    ensures var n := SweepApply(m, EndSweep(i));
            && n.done.ClosedChan? && n.mu.Free? && n.listeners == s.listeners && n.shuts[i].Polling?
            && SweepResult(s.listeners, s.closed, s.closeErr, fails, n.closed, n.closeErr, n.shuts[i].r.err)
  {
    assert s.listeners - m.shuts[i].todo == s.listeners;
  }

  lemma {:induction false} SweptToEnd(s: State, m: State, i: nat, fails: nat -> bool, closes: seq<Action>)
    requires OnceInv(s) && SweptSoFar(s, m, i, fails)
    requires forall k :: 0 <= k < |closes| ==> ClosesFor(closes[k], i, fails)
    requires Run(m, closes) && Enabled(End(m, closes), Sweep(EndSweep(i)))
    ensures var n := Apply(End(m, closes), Sweep(EndSweep(i)));
            && n.done.ClosedChan? && n.mu.Free? && n.listeners == s.listeners && n.shuts[i].Polling?
            && SweepResult(s.listeners, s.closed, s.closeErr, fails, n.closed, n.closeErr, n.shuts[i].r.err)
    decreases |closes|
  {
    if closes == [] {
      SweptEnd(s, m, i, fails);
    } else {
      SweptStep(s, m, i, fails, closes[0].sweep);
      SweptToEnd(s, Apply(m, closes[0]), i, fails, closes[1..]);
    }
  }

  /** From the lock to the unlock: the postcondition of `Servers.Server.ShutdownSection`. */
  lemma SweepMeetsSection(s: State, i: nat, fails: nat -> bool, closes: seq<Action>)
    requires OnceInv(s) && SweepEnabled(s, LockSweep(i))
    requires forall k :: 0 <= k < |closes| ==> ClosesFor(closes[k], i, fails)
    requires var locked := SweepApply(s, LockSweep(i));
             Run(locked, closes) && Enabled(End(locked, closes), Sweep(EndSweep(i)))
    ensures var n := Apply(End(SweepApply(s, LockSweep(i)), closes), Sweep(EndSweep(i)));
            && n.done.ClosedChan? && n.mu.Free? && n.listeners == s.listeners && n.shuts[i].Polling?
            && SweepResult(s.listeners, s.closed, s.closeErr, fails, n.closed, n.closeErr, n.shuts[i].r.err)
  {
    SweptToEnd(s, SweepApply(s, LockSweep(i)), i, fails, closes);
  }

  // ---- closeIdleConns ----

  ghost function DoomedNow(s: State): set<nat>
  {
    set c | c in s.activeConn && Doomed(s.Word(c), s.now)
  }

  predicate VisitsFor(a: Action, i: nat)
  {
    a.Poll? && (a.poll.VisitConn? || a.poll.CloseDoomed?) && a.poll.i == i
  }

  /** The connections still to be visited or, if one was read and is to be closed, that one as well. */
  function Ahead(pc: ShutPc): set<nat>
    requires pc.Visiting? || pc.Dooming?
  {
    if pc.Dooming? then pc.todo + {pc.c} else pc.todo
  }

  /** Between `s`, where the section began, and `m`: of the connections behind, the doomed ones are closed and forgotten. */
  ghost predicate VisitedSoFar(s: State, m: State, i: nat)
  {
    && m.words == s.words && m.now == s.now
    && i in m.shuts && (m.shuts[i].Visiting? || m.shuts[i].Dooming?)
    && Ahead(m.shuts[i]) <= s.activeConn
    && (m.shuts[i].Dooming? ==> m.shuts[i].c in DoomedNow(s) && m.shuts[i].c !in m.shuts[i].todo)
    && (forall c :: c in m.activeConn <==> c in s.activeConn && (c in Ahead(m.shuts[i]) || c !in DoomedNow(s)))
    && (forall c :: c in s.activeConn ==>
          (c in m.rwcClosed <==> c in s.rwcClosed || (c in DoomedNow(s) && c !in Ahead(m.shuts[i]))))
    && (m.shuts[i].quiescent <==> m.activeConn == Ahead(m.shuts[i]))
  }

  lemma VisitedStep(s: State, m: State, i: nat, a: PollAction)
    requires VisitedSoFar(s, m, i) && PollEnabled(m, a) && (a.VisitConn? || a.CloseDoomed?) && a.i == i
    ensures VisitedSoFar(s, PollApply(m, a), i)
  {
    var n := PollApply(m, a);
    if a.VisitConn? {
      assert a.c in DoomedNow(s) <==> Doomed(m.Word(a.c), m.now);
      assert a.c in m.activeConn;
      if a.c in DoomedNow(s) {
        assert Ahead(n.shuts[i]) == Ahead(m.shuts[i]);
      } else {
        assert Ahead(n.shuts[i]) == Ahead(m.shuts[i]) - {a.c};
        assert a.c in n.activeConn && a.c !in Ahead(n.shuts[i]);
      }
    } else {
      assert Ahead(n.shuts[i]) == Ahead(m.shuts[i]) - {m.shuts[i].c};
    }
  }

  lemma VisitedEnd(s: State, m: State, i: nat)
    requires VisitedSoFar(s, m, i) && PollEnabled(m, UnlockIdle(i))
    ensures var n := PollApply(m, UnlockIdle(i));
            && n.mu.Free?
            && IdleResult(s.activeConn, s.rwcClosed, DoomedNow(s), n.activeConn, n.rwcClosed, n.shuts[i].Quiet?)
  {
  }

  lemma {:induction false} VisitedToEnd(s: State, m: State, i: nat, visits: seq<Action>)
    requires VisitedSoFar(s, m, i)
    requires forall k :: 0 <= k < |visits| ==> VisitsFor(visits[k], i)
    requires Run(m, visits) && Enabled(End(m, visits), Poll(UnlockIdle(i)))
    ensures var n := Apply(End(m, visits), Poll(UnlockIdle(i)));
            && n.mu.Free?
            && IdleResult(s.activeConn, s.rwcClosed, DoomedNow(s), n.activeConn, n.rwcClosed, n.shuts[i].Quiet?)
    decreases |visits|
  {
    if visits == [] {
      VisitedEnd(s, m, i);
    } else {
      VisitedStep(s, m, i, visits[0].poll);
      VisitedToEnd(s, Apply(m, visits[0]), i, visits[1..]);
    }
  }

  /** From the lock to the unlock, with nobody else at work: the postcondition of `Servers.Server.CloseIdleConns`. */
  lemma VisitMeetsCloseIdleConns(s: State, i: nat, visits: seq<Action>)
    requires PollEnabled(s, LockIdle(i))
    requires forall k :: 0 <= k < |visits| ==> VisitsFor(visits[k], i)
    requires var locked := PollApply(s, LockIdle(i));
             Run(locked, visits) && Enabled(End(locked, visits), Poll(UnlockIdle(i)))
    ensures var n := Apply(End(PollApply(s, LockIdle(i)), visits), Poll(UnlockIdle(i)));
            && n.mu.Free?
            && IdleResult(s.activeConn, s.rwcClosed, DoomedNow(s), n.activeConn, n.rwcClosed, n.shuts[i].Quiet?)
  {
    VisitedToEnd(s, PollApply(s, LockIdle(i)), i, visits);
  }
}
