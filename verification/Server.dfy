/** The server's shared state and its critical sections, each a method that holds mu from its first line to its last. */
module Servers {
  import opened ConnStates

  datatype DoneChan = NilChan | OpenChan | ClosedChan
  {
    /** getDoneChanLocked creates the channel if it is missing. */
    function Made(): DoneChan
    {
      if NilChan? then OpenChan else this
    }
  }

  /**
   * What closing all `listeners` does: all are closed afterwards, each has failed if its first close did, and
   * the answer is an error if and only if one has. `fails` is what a listener answers that was still open.
   */
  ghost predicate SweepResult<L>(listeners: set<L>, closed: set<L>, closeErr: set<L>, fails: L -> bool,
                                 closed': set<L>, closeErr': set<L>, err: bool)
  {
    && listeners <= closed'
    && (forall l :: l in listeners ==> (l in closeErr' <==> if l in closed then l in closeErr else fails(l)))
    && (err <==> exists l :: l in listeners && l in closeErr')
  }

  /** What closeIdleConns does: the doomed connections are closed and forgotten, and the answer says if none is left. */
  ghost predicate IdleResult<C>(active: set<C>, rwcClosed: set<C>, doomed: set<C>,
                                active': set<C>, rwcClosed': set<C>, quiescent: bool)
  {
    && active' == active - doomed
    && (forall c :: c in active ==> (c in rwcClosed' <==> c in rwcClosed || c in doomed))
    && (quiescent <==> active' == {})
  }

  /** A connection: its state word, and whether its socket has been closed. */
  class Conn {
    var word: nat
    var rwcClosed: bool

    constructor ()
      ensures word == 0 && !rwcClosed
    {
      word, rwcClosed := 0, false;
    }

    /** The store of setState; `now` is the clock's reading. */
    method StoreState(state: ConnState, now: int)
      modifies `word
      ensures word == Pack(now, state)
    {
      word := Pack(now, state);
    }

    method GetState() returns (state: nat, unixSec: nat)
      ensures (state, unixSec) == Unpack(word)
    {
      state, unixSec := word % 256, word / 256;
    }
  }

  ghost function ClosedConns(conns: set<Conn>): set<Conn>
    reads conns
  {
    set c | c in conns && c.rwcClosed
  }

  /** A listener whose inner Close runs once; later calls get the first answer. */
  class OnceCloseListener {
    var done: bool
    var closeErr: bool
    var innerCloses: nat

    ghost predicate Valid()
      reads this
    {
      innerCloses == if done then 1 else 0
    }

    constructor ()
      ensures Valid() && !done
    {
      done, closeErr, innerCloses := false, false, 0;
    }

    /** `innerErr` is what the inner listener answers if it is asked. */
    method Close(innerErr: bool) returns (err: bool)
      requires Valid()
      modifies this
      ensures Valid() && done && innerCloses == 1
      ensures err == closeErr == if old(done) then old(closeErr) else innerErr
    {
      if !done {
        done := true;
        innerCloses := innerCloses + 1;
        closeErr := innerErr;
      }
      err := closeErr;
    }
  }

  class Server {
    var inShutdown: bool
    var listeners: set<OnceCloseListener>
    var activeConn: set<Conn>
    var doneChan: DoneChan
    var doneCloses: nat

    ghost predicate Valid()
      reads this, listeners
    {
      && doneCloses == (if doneChan.ClosedChan? then 1 else 0)
      && forall l :: l in listeners ==> l.Valid()
    }

    constructor ()
      ensures Valid() && !inShutdown && listeners == {} && activeConn == {} && doneChan == NilChan
    {
      inShutdown, listeners, activeConn, doneChan, doneCloses := false, {}, {}, NilChan, 0;
    }

    method SetInShutdown()
      modifies `inShutdown
      ensures inShutdown
    {
      inShutdown := true;
    }

    /** Reports whether the server is still up; a listener is added only then. */
    method TrackListener(ln: OnceCloseListener, add: bool) returns (up: bool)
      requires Valid() && ln.Valid()
      modifies `listeners
      ensures Valid()
      ensures up <==> !(add && inShutdown)
      ensures listeners == if !up then old(listeners) else if add then old(listeners) + {ln} else old(listeners) - {ln}
    {
      if add {
        if inShutdown {
          return false;
        }
        listeners := listeners + {ln};
      } else {
        listeners := listeners - {ln};
      }
      up := true;
    }

    method TrackConn(c: Conn, add: bool)
      modifies `activeConn
      ensures activeConn == if add then old(activeConn) + {c} else old(activeConn) - {c}
    {
      if add {
        activeConn := activeConn + {c};
      } else {
        activeConn := activeConn - {c};
      }
    }

    method GetDoneChan() returns (closed: bool)
      requires Valid()
      modifies `doneChan
      ensures Valid()
      ensures doneChan == old(doneChan).Made()
      ensures closed <==> doneChan.ClosedChan?
    {
      if doneChan.NilChan? {
        doneChan := OpenChan;
      }
      closed := doneChan.ClosedChan?;
    }

    method CloseDoneChanLocked()
      requires Valid()
      modifies `doneChan, `doneCloses
      ensures Valid() && doneChan == ClosedChan
    {
      var closed := GetDoneChan();
      if !closed {
        doneChan := ClosedChan;
        doneCloses := doneCloses + 1;
      }
    }

    /** Closes every tracked listener; the answer is an error if and only if one of them has failed to close. */
    method CloseListenersLocked(innerErr: OnceCloseListener -> bool) returns (err: bool)
      requires Valid()
      modifies listeners
      ensures Valid()
      ensures forall l :: l in listeners ==> l.done && l.innerCloses == 1
      ensures forall l :: l in listeners ==> l.closeErr == if old(l.done) then old(l.closeErr) else innerErr(l)
      ensures err <==> exists l :: l in listeners && l.closeErr
    {
      err := false;
      var todo := listeners;
      while todo != {}
        invariant todo <= listeners
        invariant Valid()
        invariant forall l :: l in todo ==> l.done == old(l.done) && l.closeErr == old(l.closeErr)
        invariant forall l :: l in listeners - todo ==> l.done && l.innerCloses == 1
        invariant forall l :: l in listeners - todo ==> l.closeErr == if old(l.done) then old(l.closeErr) else innerErr(l)
        invariant err <==> exists l :: l in listeners - todo && l.closeErr
        decreases todo
      {
        var ln :| ln in todo;
        ghost var seen := listeners - todo;
        var cerr := ln.Close(innerErr(ln));
        todo := todo - {ln};
        assert listeners - todo == seen + {ln};
        if cerr && !err {
          err := cerr;
        }
      }
    }

    /** The tracked listeners that are closed, and those that have failed to close. */
    ghost function ClosedListeners(): set<OnceCloseListener>
      reads this, listeners
    {
      set l | l in listeners && l.done
    }

    ghost function FailedListeners(): set<OnceCloseListener>
      reads this, listeners
    {
      set l | l in listeners && l.closeErr
    }

    /** Shutdown's locked section, run after SetInShutdown: all tracked listeners and the done channel are closed. */
    method ShutdownSection(innerErr: OnceCloseListener -> bool) returns (lnerr: bool)
      requires Valid()
      modifies `doneChan, `doneCloses, listeners
      ensures Valid() && doneChan == ClosedChan
      ensures SweepResult(listeners, old(ClosedListeners()), old(FailedListeners()), innerErr,
                          ClosedListeners(), FailedListeners(), lnerr)
    {
      lnerr := CloseListenersLocked(innerErr);
      CloseDoneChanLocked();
      if l :| l in listeners && l.closeErr {
        assert l in FailedListeners();
      }
    }

    ghost function DoomedConns(now: int): set<Conn>
      reads this, activeConn
    {
      set c | c in activeConn && Doomed(c.word, now)
    }

    /** Closes and forgets the doomed connections, keeps the others, and reports whether none is left. */
    method CloseIdleConns(now: int) returns (quiescent: bool)
      modifies `activeConn, activeConn`rwcClosed
      ensures IdleResult(old(activeConn), old(ClosedConns(activeConn)), old(DoomedConns(now)),
                         activeConn, ClosedConns(old(activeConn)), quiescent)
    {
      ghost var doomed := DoomedConns(now);
      quiescent := true;
      var todo := activeConn;
      while todo != {}
        invariant todo <= activeConn <= old(activeConn)
        invariant forall c :: c in old(activeConn) - todo ==> (c in activeConn <==> c !in doomed)
        invariant forall c :: c in old(activeConn) - todo ==> c.rwcClosed == (old(c.rwcClosed) || c in doomed)
        invariant forall c :: c in todo ==> c.rwcClosed == old(c.rwcClosed)
        invariant quiescent <==> activeConn == todo
        decreases todo
      {
        var c :| c in todo;
        todo := todo - {c};
        var st, unixSec := c.GetState();
        if st == StateNew.Code() && unixSec < now - 5 {
          st := StateIdle.Code();
        }
        if st != StateIdle.Code() || unixSec == 0 {
          quiescent := false;
        } else {
          c.rwcClosed := true;
          activeConn := activeConn - {c};
        }
      }
    }

    method NumListeners() returns (n: nat)
      ensures n == 0 <==> listeners == {}
    {
      n := |listeners|;
    }
  }
}
