/**
 * connReader: the byte source of a connection, shared by the goroutine that reads requests and a background
 * read of one byte. First each critical section as a function of the guarded fields, and the object whose
 * methods are those sections; then every interleaving of any number of goroutines.
 */
module ConnReaders {
  import opened Bytes

  // ---- The critical sections ----

  /** The fields guarded by mu. */
  datatype Guarded = Guarded(inRead: bool, hasByte: bool, byteBuf: byte, aborted: bool, remain: int)

  datatype StartResult = StartPanics | AlreadyBuffered | Started

  function StartSection(g: Guarded): (Guarded, StartResult)
  {
    if g.inRead then (g, StartPanics)
    else if g.hasByte then (g, AlreadyBuffered)
    else (g.(inRead := true), Started)
  }

  datatype SocketError = NoError | Timeout | OtherError

  /** The end of a background read: the new fields, and whether the connection's context is cancelled. */
  function BackgroundSection(g: Guarded, data: seq<byte>, err: SocketError): (Guarded, bool)
  {
    var h := if |data| == 1 then g.(hasByte := true, byteBuf := data[0]) else g;
    (h.(aborted := false, inRead := false), err != NoError && !(g.aborted && err == Timeout))
  }

  /** The beginning of an abort: the new fields, and whether it has to wait. */
  function AbortSection(g: Guarded): (Guarded, bool)
  {
    if !g.inRead then (g, false) else (g.(aborted := true), true)
  }

  datatype ReadEntry = ReadPanics | ReadEOF | ReadNothing | Handed(b: byte) | ToSocket(max: nat)

  function ReadSection(g: Guarded, want: nat): (Guarded, ReadEntry)
  {
    if g.inRead then (g, ReadPanics)
    else if g.remain <= 0 then (g, ReadEOF)
    else if want == 0 then (g, ReadNothing)
    else if g.hasByte then (g.(hasByte := false), Handed(g.byteBuf))
    else (g.(inRead := true), ToSocket(if want > g.remain then g.remain else want))
  }

  function ReadDoneSection(g: Guarded, n: nat): Guarded
  {
    g.(inRead := false, remain := g.remain - n)
  }

  class ConnReader {
    var hasByte: bool
    var byteBuf: byte
    var inRead: bool
    var aborted: bool
    var remain: int
    var cancelled: bool

    constructor ()
      ensures Fields() == Guarded(false, false, 0, false, 0) && !cancelled
    {
      hasByte, byteBuf, inRead, aborted, remain, cancelled := false, 0, false, false, 0, false;
    }

    ghost function Fields(): Guarded
      reads this
    {
      Guarded(inRead, hasByte, byteBuf, aborted, remain)
    }

    method StartBackgroundRead() returns (r: StartResult)
      modifies `inRead
      ensures (Fields(), r) == StartSection(old(Fields()))
    {
      if inRead {
        return StartPanics;
      }
      if hasByte {
        return AlreadyBuffered;
      }
      inRead := true;
      r := Started;
    }

    method FinishBackgroundRead(data: seq<byte>, err: SocketError)
      requires |data| <= 1
      modifies this
      ensures Fields() == BackgroundSection(old(Fields()), data, err).0
      ensures cancelled == (old(cancelled) || BackgroundSection(old(Fields()), data, err).1)
    {
      if |data| == 1 {
        hasByte := true;
        byteBuf := data[0];
      }
      if aborted && err == Timeout {
        // the expected error after an abort
      } else if err != NoError {
        cancelled := true;
      }
      aborted := false;
      inRead := false;
    }

    /** Returns whether the caller has to wait until inRead is false. */
    method AbortPendingRead() returns (waits: bool)
      modifies `aborted
      ensures (Fields(), waits) == AbortSection(old(Fields()))
    {
      if !inRead {
        return false;
      }
      aborted := true;
      waits := true;
    }

    method SetReadLimit(limit: int)
      modifies `remain
      ensures Fields() == old(Fields()).(remain := limit)
    {
      remain := limit;
    }

    method HitReadLimit() returns (hit: bool)
      ensures hit <==> remain <= 0
    {
      hit := remain <= 0;
    }

    method EnterRead(want: nat) returns (r: ReadEntry)
      modifies `inRead, `hasByte
      ensures (Fields(), r) == ReadSection(old(Fields()), want)
    {
      if inRead {
        return ReadPanics;
      }
      var hit := HitReadLimit();
      if hit {
        return ReadEOF;
      }
      if want == 0 {
        return ReadNothing;
      }
      var size := want;
      if size > remain {
        size := remain;
      }
      if hasByte {
        hasByte := false;
        return Handed(byteBuf);
      }
      inRead := true;
      r := ToSocket(size);
    }

    method FinishRead(n: nat, failed: bool)
      modifies `inRead, `remain, `cancelled
      ensures Fields() == ReadDoneSection(old(Fields()), n)
      ensures cancelled == (old(cancelled) || failed)
    {
      inRead := false;
      if failed {
        cancelled := true;
      }
      remain := remain - n;
    }
  }

  // ---- All interleavings ----

  /** Where a goroutine stands; one that is in none of these places is not in the table. */
  datatype Pc =
    | FgSocket(max: nat)                                // Read, inside the socket's Read
    | FgHolds(data: seq<byte>, failed: bool)            // Read, back from the socket, mu not yet taken
    | BgSocket                                          // backgroundRead, inside the socket's Read
    | BgHolds(data: seq<byte>, err: SocketError)        // backgroundRead, back from the socket
    | Announcing                                        // inRead cleared and mu released, Broadcast to come
    | Asleep                                            // abortPendingRead, in cond.Wait
    | Woken                                             // abortPendingRead, woken but without mu
  {
    predicate Reading()
    {
      FgSocket? || FgHolds? || BgSocket? || BgHolds?
    }

    predicate Foreground()
    {
      FgSocket? || FgHolds?
    }

    predicate Background()
    {
      BgSocket? || BgHolds?
    }
  }

  /**
   * The guarded fields, the goroutines, whether the context is cancelled, and what history needs: the bytes
   * taken from the socket, the bytes handed to callers of Read, the last limit, the foreground bytes counted
   * and the background bytes handed over since, and whether an abort has hit a foreground or a background read
   * since a background read finished last.
   */
  datatype System = System(
    g: Guarded, pcs: map<nat, Pc>, cancelled: bool,
    taken: seq<byte>, delivered: seq<byte>,
    limit: int, foreground: nat, pushedBack: nat, deliveredAtLimit: nat, fgHit: bool, bgHit: bool)

  const INIT := System(Guarded(false, false, 0, false, 0), map[], false, [], [], 0, 0, 0, 0, false, false)

  datatype Action =
    | Read(t: nat, want: nat)
    | FgReturns(t: nat, data: seq<byte>, failed: bool)
    | FgFinishes(t: nat)
    | Start(t: nat)
    | BgReturns(t: nat, data: seq<byte>, err: SocketError)
    | BgFinishes(t: nat)
    | Broadcast(t: nat)
    | Abort(t: nat)
    | Resume(t: nat)
    | SetLimit(limit: int)

  predicate Enabled(s: System, a: Action)
  {
    match a
    case Read(t, _) => t !in s.pcs
    case FgReturns(t, data, _) => t in s.pcs && s.pcs[t].FgSocket? && |data| <= s.pcs[t].max
    case FgFinishes(t) => t in s.pcs && s.pcs[t].FgHolds?
    case Start(t) => t !in s.pcs
    case BgReturns(t, data, _) => t in s.pcs && s.pcs[t].BgSocket? && |data| <= 1
    case BgFinishes(t) => t in s.pcs && s.pcs[t].BgHolds?
    case Broadcast(t) => t in s.pcs && s.pcs[t].Announcing?
    case Abort(t) => t !in s.pcs
    case Resume(t) => t in s.pcs && s.pcs[t].Woken?
    case SetLimit(_) => true
  }

  function Without(pcs: map<nat, Pc>, t: nat): (r: map<nat, Pc>)
    ensures forall u :: u in r <==> u in pcs && u != t
    ensures forall u :: u in r ==> r[u] == pcs[u]
  {
    map u | u in pcs && u != t :: pcs[u]
  }

  function AllWoken(pcs: map<nat, Pc>): (r: map<nat, Pc>)
    ensures forall u :: u in r <==> u in pcs
    ensures forall u :: u in r ==> r[u] == if pcs[u].Asleep? then Woken else pcs[u]
  {
    map u | u in pcs :: if pcs[u].Asleep? then Woken else pcs[u]
  }

  function Apply(s: System, a: Action): System
    requires Enabled(s, a)
  {
    match a
    case Read(t, want) => AfterRead(s, t, want)
    case FgReturns(t, data, failed) => s.(pcs := s.pcs[t := FgHolds(data, failed)], taken := s.taken + data)
    case FgFinishes(t) =>
      var data := s.pcs[t].data;
      s.(g := ReadDoneSection(s.g, |data|), pcs := s.pcs[t := Announcing], cancelled := s.cancelled || s.pcs[t].failed,
         delivered := s.delivered + data, foreground := s.foreground + |data|)
    case Start(t) =>
      var (g, r) := StartSection(s.g);
      s.(g := g, pcs := if r.Started? then s.pcs[t := BgSocket] else s.pcs)
    case BgReturns(t, data, err) => s.(pcs := s.pcs[t := BgHolds(data, err)], taken := s.taken + data)
    case BgFinishes(t) =>
      var (g, cancels) := BackgroundSection(s.g, s.pcs[t].data, s.pcs[t].err);
      s.(g := g, pcs := s.pcs[t := Announcing], cancelled := s.cancelled || cancels, fgHit := false, bgHit := false)
    case Broadcast(t) => s.(pcs := AllWoken(Without(s.pcs, t)))
    case Abort(t) =>
      var (g, waits) := AbortSection(s.g);
      s.(g := g, pcs := if waits then s.pcs[t := Asleep] else s.pcs,
         fgHit := s.fgHit || (exists u :: u in s.pcs && s.pcs[u].Foreground()),
         bgHit := s.bgHit || (exists u :: u in s.pcs && s.pcs[u].Background()))
    case Resume(t) => s.(pcs := if s.g.inRead then s.pcs[t := Asleep] else Without(s.pcs, t))
    case SetLimit(limit) =>
      s.(g := s.g.(remain := limit), limit := limit, foreground := 0, pushedBack := 0, deliveredAtLimit := |s.delivered|)
  }

  function AfterRead(s: System, t: nat, want: nat): System
  {
    var (g, r) := ReadSection(s.g, want);
    match r
    case Handed(b) => s.(g := g, delivered := s.delivered + [b], pushedBack := s.pushedBack + 1)
    case ToSocket(max) => s.(g := g, pcs := s.pcs[t := FgSocket(max)])
    case _ => s
  }

  /** A run of the system: each action possible where it comes. */
  predicate Run(s: System, run: seq<Action>)
    decreases |run|
  {
    run == [] || (Enabled(s, run[0]) && Run(Apply(s, run[0]), run[1..]))
  }

  function End(s: System, run: seq<Action>): System
    requires Run(s, run)
    decreases |run|
  {
    if run == [] then s else End(Apply(s, run[0]), run[1..])
  }

  // ---- Exclusion ----

  /** At most one goroutine reads, one does exactly while inRead is set, and then no byte is waiting. */
  ghost predicate Exclusive(s: System)
  {
    && (forall t, u :: t in s.pcs && u in s.pcs && s.pcs[t].Reading() && s.pcs[u].Reading() ==> t == u)
    && (s.g.inRead <==> exists t :: t in s.pcs && s.pcs[t].Reading())
    && (s.g.inRead ==> !s.g.hasByte)
  }

  lemma ExclusiveStep(s: System, a: Action)
    requires Exclusive(s) && Enabled(s, a)
    ensures Exclusive(Apply(s, a))
  {
    var n := Apply(s, a);
    match a
    case Read(t, want) =>
      if ReadSection(s.g, want).1.ToSocket? {
        assert n.pcs[t].Reading();
      }
    case FgReturns(t, _, _) => assert s.pcs[t].Reading() && n.pcs[t].Reading();
    case FgFinishes(t) => assert s.pcs[t].Reading();
    case Start(t) =>
      if !s.g.inRead && !s.g.hasByte {
        assert n.pcs[t].Reading();
      }
    case BgReturns(t, _, _) => assert s.pcs[t].Reading() && n.pcs[t].Reading();
    case BgFinishes(t) => assert s.pcs[t].Reading();
    case Broadcast(t) => StillReading(s, n);
    case Abort(t) => StillReading(s, n);
    case Resume(t) => StillReading(s, n);
    case SetLimit(_) =>
  }

  /** A step that moves no reader and leaves inRead alone keeps the exclusion. */
  lemma StillReading(s: System, n: System)
    requires Exclusive(s) && n.g.inRead == s.g.inRead && n.g.hasByte == s.g.hasByte
    requires forall u :: u in s.pcs && s.pcs[u].Reading() ==> u in n.pcs && n.pcs[u] == s.pcs[u]
    requires forall u :: u in n.pcs && n.pcs[u].Reading() ==> u in s.pcs && n.pcs[u] == s.pcs[u]
    ensures Exclusive(n)
  {
    if s.g.inRead {
      var t :| t in s.pcs && s.pcs[t].Reading();
      assert n.pcs[t].Reading();
    }
  }

  // ---- The byte stream ----

  predicate Holds(pc: Pc)
  {
    pc.FgHolds? || pc.BgHolds?
  }

  function Pending(g: Guarded): seq<byte>
  {
    if g.hasByte then [g.byteBuf] else []
  }

  /** Taken from the socket: the delivered bytes, then those a reader holds, then the one waiting. */
  ghost predicate Stream(s: System)
  {
    && (forall t :: t in s.pcs && Holds(s.pcs[t]) ==> s.taken == s.delivered + s.pcs[t].data)
    && ((forall t :: t in s.pcs ==> !Holds(s.pcs[t])) ==> s.taken == s.delivered + Pending(s.g))
    && (forall t :: t in s.pcs && s.pcs[t].BgHolds? ==> |s.pcs[t].data| <= 1)
  }

  lemma StreamStep(s: System, a: Action)
    requires Exclusive(s) && Stream(s) && Enabled(s, a)
    ensures Stream(Apply(s, a))
  {
    var n := Apply(s, a);
    match a
    case Read(t, want) => StreamEntry(s, a);
    case FgReturns(t, data, _) => StreamReturn(s, a, t, data);
    case FgFinishes(t) => StreamFinish(s, a, t);
    case Start(t) => StreamEntry(s, a);
    case BgReturns(t, data, _) => StreamReturn(s, a, t, data);
    case BgFinishes(t) => StreamFinish(s, a, t);
    case Broadcast(t) => SameHolders(s, n);
    case Abort(t) => SameHolders(s, n);
    case Resume(t) => SameHolders(s, n);
    case SetLimit(_) => SameHolders(s, n);
  }

  lemma StreamEntry(s: System, a: Action)
    requires Exclusive(s) && Stream(s) && Enabled(s, a) && (a.Read? || a.Start?)
    ensures Stream(Apply(s, a))
  {
    if !s.g.inRead {
      assert forall u :: u in s.pcs ==> !s.pcs[u].Reading();
    }
  }

  lemma StreamReturn(s: System, a: Action, t: nat, data: seq<byte>)
    requires Exclusive(s) && Stream(s) && Enabled(s, a)
    requires (a.FgReturns? || a.BgReturns?) && a.t == t && a.data == data
    ensures Stream(Apply(s, a))
  {
    var n := Apply(s, a);
    assert s.pcs[t].Reading();
    assert forall u :: u in s.pcs && u != t ==> !s.pcs[u].Reading();
    assert n.pcs[t].data == data && s.taken == s.delivered;
  }

  lemma StreamFinish(s: System, a: Action, t: nat)
    requires Exclusive(s) && Stream(s) && Enabled(s, a)
    requires (a.FgFinishes? || a.BgFinishes?) && a.t == t
    ensures Stream(Apply(s, a))
  {
    assert s.pcs[t].Reading() && Holds(s.pcs[t]);
    assert forall u :: u in s.pcs && u != t ==> !s.pcs[u].Reading();
    assert s.taken == s.delivered + s.pcs[t].data;
  }

  lemma SameHolders(s: System, n: System)
    requires Stream(s) && Pending(n.g) == Pending(s.g) && n.taken == s.taken && n.delivered == s.delivered
    requires forall u :: u in s.pcs && Holds(s.pcs[u]) ==> u in n.pcs && n.pcs[u] == s.pcs[u]
    requires forall u :: u in n.pcs && Holds(n.pcs[u]) ==> u in s.pcs && n.pcs[u] == s.pcs[u]
    ensures Stream(n)
  {
    if exists t :: t in s.pcs && Holds(s.pcs[t]) {
      var t :| t in s.pcs && Holds(s.pcs[t]);
      assert Holds(n.pcs[t]);
    }
  }

  // ---- Wake-ups ----

  /** No lost wake-up: a waiter sleeps only while a read is on or its Broadcast is still to come. */
  ghost predicate WakeUp(s: System)
  {
    (exists t :: t in s.pcs && s.pcs[t].Asleep?) && !s.g.inRead ==> exists u :: u in s.pcs && s.pcs[u].Announcing?
  }

  lemma WakeUpStep(s: System, a: Action)
    requires WakeUp(s) && Enabled(s, a)
    ensures WakeUp(Apply(s, a))
  {
    var n := Apply(s, a);
    if exists t :: t in n.pcs && n.pcs[t].Asleep? {
      match a
      case FgFinishes(t) => assert n.pcs[t].Announcing?;
      case BgFinishes(t) => assert n.pcs[t].Announcing?;
      case Broadcast(t) =>
      case _ =>
        if !n.g.inRead {
          var t :| t in n.pcs && n.pcs[t].Asleep?;
          assert t in s.pcs && s.pcs[t].Asleep?;
          var u :| u in s.pcs && s.pcs[u].Announcing?;
          assert u in n.pcs && n.pcs[u].Announcing?;
        }
    }
  }

  // ---- What every reachable state keeps ----

  ghost predicate Safe(s: System)
  {
    Exclusive(s) && Stream(s) && WakeUp(s)
  }

  lemma {:induction false} RunSafe(s: System, run: seq<Action>)
    requires Safe(s) && Run(s, run)
    ensures Safe(End(s, run))
    decreases |run|
  {
    if run != [] {
      ExclusiveStep(s, run[0]);
      StreamStep(s, run[0]);
      WakeUpStep(s, run[0]);
      RunSafe(Apply(s, run[0]), run[1..]);
    }
  }

  /** At most one goroutine is inside the socket read, in every interleaving. */
  lemma OneReader(run: seq<Action>, t: nat, u: nat)
    requires Run(INIT, run)
    requires var s := End(INIT, run); t in s.pcs && u in s.pcs && s.pcs[t].Reading() && s.pcs[u].Reading()
    ensures t == u && End(INIT, run).g.inRead && !End(INIT, run).g.hasByte
  {
    RunSafe(INIT, run);
  }

  /** The panic on a concurrent read is raised exactly while another goroutine is between the two ends of a read. */
  lemma PanicsIffReading(run: seq<Action>, want: nat)
    requires Run(INIT, run)
    ensures var s := End(INIT, run);
            && (ReadSection(s.g, want).1.ReadPanics? <==> exists u :: u in s.pcs && s.pcs[u].Reading())
            && (StartSection(s.g).1.StartPanics? <==> exists u :: u in s.pcs && s.pcs[u].Reading())
  {
    RunSafe(INIT, run);
  }

  /** The bytes a reader has taken from the socket and not yet accounted for. */
  ghost function InFlight(s: System): seq<byte>
  {
    if t :| t in s.pcs && Holds(s.pcs[t]) then s.pcs[t].data else []
  }

  /**
   * Nothing is lost, duplicated or reordered, in every interleaving: the bytes taken from the socket are those
   * that Read delivered, then those in flight, then the one pushed back; the last two are never there at once.
   */
  lemma StreamIsKept(run: seq<Action>)
    requires Run(INIT, run)
    ensures var s := End(INIT, run);
            && s.taken == s.delivered + InFlight(s) + Pending(s.g)
            && (InFlight(s) == [] || Pending(s.g) == [])
            && (!s.g.inRead ==> InFlight(s) == [])
  {
    RunSafe(INIT, run);
    var s := End(INIT, run);
    if t :| t in s.pcs && Holds(s.pcs[t]) {
      assert s.pcs[t].Reading();
    }
  }

  /**
   * An abort that had to wait leaves only when no read is going on: the one it waited for is over, and all
   * bytes taken from the socket have been delivered or wait in the buffer.
   */
  lemma AbortLeavesNoRead(run: seq<Action>, t: nat)
    requires Run(INIT, run)
    requires Enabled(End(INIT, run), Resume(t)) && t !in Apply(End(INIT, run), Resume(t)).pcs
    ensures var s := Apply(End(INIT, run), Resume(t));
            && (forall u :: u in s.pcs ==> !s.pcs[u].Reading())
            && !s.g.inRead
            && s.taken == s.delivered + Pending(s.g)
  {
    RunSafe(INIT, run);
    var s := End(INIT, run);
    assert !s.g.inRead;
    StreamIsKept(run);
    assert forall u :: u in s.pcs ==> !s.pcs[u].Reading();
  }

  /** A sleeping waiter is always woken or about to be: some goroutine still reads or still has to broadcast. */
  lemma SleeperIsOwedWakeUp(run: seq<Action>, t: nat)
    requires Run(INIT, run)
    requires var s := End(INIT, run); t in s.pcs && s.pcs[t].Asleep?
    ensures var s := End(INIT, run); exists u :: u in s.pcs && (s.pcs[u].Reading() || s.pcs[u].Announcing?)
  {
    RunSafe(INIT, run);
  }

  // ---- The read budget ----

  /** setReadLimit runs on the goroutine that reads requests, so never during a foreground read. */
  ghost predicate Orderly(s: System, a: Action)
  {
    a.SetLimit? ==> forall t :: t in s.pcs ==> !s.pcs[t].Foreground()
  }

  ghost predicate OrderlyRun(s: System, run: seq<Action>)
    decreases |run|
  {
    run == [] || (Enabled(s, run[0]) && Orderly(s, run[0]) && OrderlyRun(Apply(s, run[0]), run[1..]))
  }

  /** The limit is what is left plus what the foreground took; a read under way cannot take more than is left. */
  ghost predicate Budget(s: System)
  {
    && s.limit == s.g.remain + s.foreground
    && (s.limit >= 0 ==> s.g.remain >= 0)
    && s.deliveredAtLimit + s.foreground + s.pushedBack == |s.delivered|
    && (forall t :: t in s.pcs && s.pcs[t].FgSocket? ==> s.pcs[t].max <= s.g.remain)
    && (forall t :: t in s.pcs && s.pcs[t].FgHolds? ==> |s.pcs[t].data| <= s.g.remain)
  }

  lemma BudgetStep(s: System, a: Action)
    requires Exclusive(s) && Budget(s) && Enabled(s, a) && Orderly(s, a)
    ensures Budget(Apply(s, a))
  {
    match a
    case Read(t, want) => BudgetRead(s, t, want);
    case FgFinishes(t) => BudgetFinish(s, t);
    case SetLimit(_) => assert forall u :: u in s.pcs ==> !s.pcs[u].Foreground();
    case _ =>
  }

  lemma BudgetRead(s: System, t: nat, want: nat)
    requires Budget(s) && Enabled(s, Read(t, want))
    ensures Budget(Apply(s, Read(t, want)))
  {
  }

  lemma BudgetFinish(s: System, t: nat)
    requires Exclusive(s) && Budget(s) && Enabled(s, FgFinishes(t))
    ensures Budget(Apply(s, FgFinishes(t)))
  {
    assert s.pcs[t].Reading();
    assert forall u :: u in s.pcs && u != t ==> !s.pcs[u].Reading();
  }

  lemma {:induction false} RunInBudget(s: System, run: seq<Action>)
    requires Exclusive(s) && Budget(s) && OrderlyRun(s, run)
    ensures Run(s, run) && Budget(End(s, run))
    decreases |run|
  {
    if run != [] {
      ExclusiveStep(s, run[0]);
      BudgetStep(s, run[0]);
      RunInBudget(Apply(s, run[0]), run[1..]);
    }
  }

  /**
   * From any limit that is not negative: what remains never drops below zero, and the bytes delivered since the
   * limit was set exceed it by no more than the background bytes handed over, which are not counted.
   */
  ghost predicate WithinBudget(s: System)
  {
    s.limit >= 0 ==>
      && 0 <= s.g.remain <= s.limit
      && |s.delivered| - s.deliveredAtLimit == (s.limit - s.g.remain) + s.pushedBack
  }

  /**
   * conn.serve marks a connection active when what remains differs from the limit it set. That happens exactly
   * if the foreground took bytes; a message byte that came through the background read does not show.
   */
  ghost predicate ActiveIffForegroundBytes(s: System)
  {
    && (s.g.remain != s.limit <==> s.foreground > 0)
    && (s.g.remain == s.limit ==> |s.delivered| == s.deliveredAtLimit + s.pushedBack)
  }

  /** What remains of any limit is what the foreground has not taken of it. */
  ghost predicate LimitAccounted(s: System)
  {
    s.limit == s.g.remain + s.foreground
  }

  lemma DeliveredWithinBudget(run: seq<Action>)
    requires OrderlyRun(INIT, run)
    ensures Run(INIT, run)
    ensures WithinBudget(End(INIT, run))
    ensures ActiveIffForegroundBytes(End(INIT, run))
    ensures LimitAccounted(End(INIT, run))
  {
    RunInBudget(INIT, run);
    BudgetMeaning(End(INIT, run));
  }

  lemma BudgetMeaning(s: System)
    requires Budget(s)
    ensures WithinBudget(s) && ActiveIffForegroundBytes(s) && LimitAccounted(s)
  {
  }

  /** One more action at the end of a run from the start. */
  lemma {:induction false} Extend(from: System, run: seq<Action>, s: System, a: Action)
    requires Run(from, run) && End(from, run) == s && Enabled(s, a)
    ensures Run(from, run + [a]) && End(from, run + [a]) == Apply(s, a)
    decreases |run|
  {
    if run == [] {
      assert (run + [a])[1..] == [];
    } else {
      Extend(Apply(from, run[0]), run[1..], s, a);
      assert (run + [a])[1..] == run[1..] + [a];
    }
  }

  // ---- Limits set at any time ----

  /** No foreground read under way may bring, or has brought, more than `limit` bytes. */
  ghost predicate ReadsFit(s: System, limit: int)
  {
    forall t :: t in s.pcs ==>
      (s.pcs[t].FgSocket? ==> s.pcs[t].max <= limit) && (s.pcs[t].FgHolds? ==> |s.pcs[t].data| <= limit)
  }

  /** A run that sets no limit. */
  ghost predicate KeepsLimit(run: seq<Action>)
  {
    forall i :: 0 <= i < |run| ==> !run[i].SetLimit?
  }

  lemma ReadsFitStep(s: System, a: Action)
    requires Exclusive(s) && Enabled(s, a) && !a.SetLimit?
    requires s.g.remain >= 0 && ReadsFit(s, s.g.remain)
    ensures Apply(s, a).g.remain >= 0 && ReadsFit(Apply(s, a), Apply(s, a).g.remain)
  {
    if a.FgFinishes? {
      assert s.pcs[a.t].Reading();
      assert forall u :: u in s.pcs && u != a.t ==> !s.pcs[u].Reading();
    }
  }

  lemma {:induction false} RunFits(s: System, run: seq<Action>)
    requires Exclusive(s) && Run(s, run) && KeepsLimit(run)
    requires s.g.remain >= 0 && ReadsFit(s, s.g.remain)
    ensures End(s, run).g.remain >= 0
    decreases |run|
  {
    if run != [] {
      ExclusiveStep(s, run[0]);
      ReadsFitStep(s, run[0]);
      RunFits(Apply(s, run[0]), run[1..]);
    }
  }

  /** A foreground read that does not fit can end with less than nothing remaining. */
  lemma ReadOverruns(s: System, t: nat) returns (run: seq<Action>)
    requires t in s.pcs
    requires (s.pcs[t].FgSocket? && s.pcs[t].max > s.g.remain) || (s.pcs[t].FgHolds? && |s.pcs[t].data| > s.g.remain)
    ensures Run(s, run) && KeepsLimit(run) && End(s, run).g.remain < 0
  {
    if s.pcs[t].FgHolds? {
      Extend(s, [], s, FgFinishes(t));
      run := [FgFinishes(t)];
    } else {
      var data: seq<byte> := seq(s.pcs[t].max, i => 0);
      var back := FgReturns(t, data, false);
      Extend(s, [], s, back);
      Extend(s, [back], Apply(s, back), FgFinishes(t));
      run := [back] + [FgFinishes(t)];
    }
  }

  /**
   * From any reachable state: what remains of a limit set there can turn negative before the next limit is set
   * if and only if a foreground read is under way that may bring more than the limit.
   */
  lemma LimitHoldsIff(run: seq<Action>, limit: nat)
    requires Run(INIT, run)
    ensures var s := End(INIT, run);
            var n := Apply(s, SetLimit(limit));
            (forall more :: Run(n, more) && KeepsLimit(more) ==> End(n, more).g.remain >= 0) <==> ReadsFit(s, limit)
  {
    RunSafe(INIT, run);
    var s := End(INIT, run);
    var n := Apply(s, SetLimit(limit));
    ExclusiveStep(s, SetLimit(limit));
    if ReadsFit(s, limit) {
      forall more | Run(n, more) && KeepsLimit(more)
        ensures End(n, more).g.remain >= 0
      {
        RunFits(n, more);
      }
    } else {
      var t :| t in s.pcs &&
               ((s.pcs[t].FgSocket? && s.pcs[t].max > limit) || (s.pcs[t].FgHolds? && |s.pcs[t].data| > limit));
      var more := ReadOverruns(n, t);
    }
  }

  /** A run in which it does: a limit of 1 set while a read of up to 10 bytes is in the socket. */
  lemma LimitDuringReadOverruns() returns (run: seq<Action>)
    ensures run == [SetLimit(10), Read(0, 10), SetLimit(1), FgReturns(0, [1, 2, 3], false), FgFinishes(0)]
    ensures Run(INIT, run) && End(INIT, run).g.remain == -2
  {
    var s1 := Apply(INIT, SetLimit(10));
    var s2 := Apply(s1, Read(0, 10));
    var s3 := Apply(s2, SetLimit(1));
    var s4 := Apply(s3, FgReturns(0, [1, 2, 3], false));
    Extend(INIT, [], INIT, SetLimit(10));
    Extend(INIT, [SetLimit(10)], s1, Read(0, 10));
    Extend(INIT, [SetLimit(10), Read(0, 10)], s2, SetLimit(1));
    Extend(INIT, [SetLimit(10), Read(0, 10), SetLimit(1)], s3, FgReturns(0, [1, 2, 3], false));
    run := [SetLimit(10), Read(0, 10), SetLimit(1), FgReturns(0, [1, 2, 3], false)];
    Extend(INIT, run, s4, FgFinishes(0));
    run := run + [FgFinishes(0)];
  }

  // ---- The aborted flag ----

  /** The flag is up exactly if an abort hit some read since; the background read that was hit is still on. */
  ghost predicate AbortFlag(s: System)
  {
    && (s.g.aborted <==> s.fgHit || s.bgHit)
    && (s.bgHit ==> exists u :: u in s.pcs && s.pcs[u].Background())
  }

  lemma AbortFlagStep(s: System, a: Action)
    requires Exclusive(s) && AbortFlag(s) && Enabled(s, a)
    ensures AbortFlag(Apply(s, a))
  {
    var n := Apply(s, a);
    if a.Abort? && s.g.inRead {
      var u :| u in s.pcs && s.pcs[u].Reading();
      assert s.pcs[u].Foreground() || s.pcs[u].Background();
    } else if a.Abort? {
      assert forall u :: u in s.pcs ==> !s.pcs[u].Reading();
    }
    if n.bgHit {
      var u :| u in s.pcs && s.pcs[u].Background();
      assert s.pcs[u].Reading();
      assert u in n.pcs && n.pcs[u].Background();
    }
  }

  lemma {:induction false} RunAbortFlag(s: System, run: seq<Action>)
    requires Exclusive(s) && AbortFlag(s) && Run(s, run)
    ensures AbortFlag(End(s, run))
    decreases |run|
  {
    if run != [] {
      ExclusiveStep(s, run[0]);
      AbortFlagStep(s, run[0]);
      RunAbortFlag(Apply(s, run[0]), run[1..]);
    }
  }

  ghost predicate NoBackgroundEnd(run: seq<Action>)
  {
    forall i :: 0 <= i < |run| ==> !run[i].BgFinishes?
  }

  /** Some abort of the run hits a read of that kind, and no background read finishes after it. */
  ghost predicate HitSince(s: System, run: seq<Action>, background: bool)
    requires Run(s, run)
    decreases |run|
  {
    run != [] &&
    (|| (&& run[0].Abort? && NoBackgroundEnd(run[1..])
         && exists u :: u in s.pcs && if background then s.pcs[u].Background() else s.pcs[u].Foreground())
     || HitSince(Apply(s, run[0]), run[1..], background))
  }

  /** That is what the two history fields record. */
  lemma {:induction false} HitsAreRecorded(s: System, run: seq<Action>)
    requires Run(s, run)
    ensures End(s, run).fgHit <==> HitSince(s, run, false) || (s.fgHit && NoBackgroundEnd(run))
    ensures End(s, run).bgHit <==> HitSince(s, run, true) || (s.bgHit && NoBackgroundEnd(run))
    decreases |run|
  {
    if run != [] {
      HitsAreRecorded(Apply(s, run[0]), run[1..]);
      assert run == [run[0]] + run[1..];
      assert NoBackgroundEnd(run) <==> !run[0].BgFinishes? && NoBackgroundEnd(run[1..]);
    }
  }

  /**
   * After any run the flag is up if and only if an abort has hit a read and no background read has finished
   * since. While none is going on, only a foreground read can have been hit: so a background read starts with
   * the flag already up exactly if an abort hit a foreground read since the last background read finished.
   */
  lemma FlagIsExact(run: seq<Action>)
    requires Run(INIT, run)
    ensures var s := End(INIT, run);
            && (s.g.aborted <==> HitSince(INIT, run, false) || HitSince(INIT, run, true))
            && (StartSection(s.g).1.Started? ==> (s.g.aborted <==> HitSince(INIT, run, false)))
  {
    RunSafe(INIT, run);
    RunAbortFlag(INIT, run);
    HitsAreRecorded(INIT, run);
    var s := End(INIT, run);
    if StartSection(s.g).1.Started? {
      assert forall u :: u in s.pcs ==> !s.pcs[u].Reading();
    }
  }

  /** So a background read's timeout cancels the context if and only if no abort has hit a read since the one before. */
  lemma TimeoutIsNoticedIff(run: seq<Action>, t: nat)
    requires Run(INIT, run) && Enabled(End(INIT, run), BgFinishes(t))
    requires End(INIT, run).pcs[t].err == Timeout && !End(INIT, run).cancelled
    ensures Apply(End(INIT, run), BgFinishes(t)).cancelled <==> !HitSince(INIT, run, false) && !HitSince(INIT, run, true)
  {
    FlagIsExact(run);
  }

  /**
   * A run in which it is not: an abort hits a foreground read and leaves the flag up, the next background read
   * runs into a timeout of its own and is taken for an aborted one. That read then clears the flag.
   */
  lemma StaleAbortHidesTimeout() returns (run: seq<Action>)
    ensures run == [SetLimit(10), Read(0, 1), Abort(1), FgReturns(0, [7], false), FgFinishes(0), Broadcast(0), Resume(1),
                    Start(2), BgReturns(2, [], Timeout), BgFinishes(2)]
    ensures Run(INIT, run) && !End(INIT, run).cancelled
  {
    var s;
    run, s := AbortedForegroundRead();
    var s8 := Apply(s, Start(2));
    var s9 := Apply(s8, BgReturns(2, [], Timeout));
    Extend(INIT, run, s, Start(2));
    run := run + [Start(2)];
    Extend(INIT, run, s8, BgReturns(2, [], Timeout));
    run := run + [BgReturns(2, [], Timeout)];
    Extend(INIT, run, s9, BgFinishes(2));
    run := run + [BgFinishes(2)];
  }

  lemma AbortedForegroundRead() returns (run: seq<Action>, s: System)
    ensures run == [SetLimit(10), Read(0, 1), Abort(1), FgReturns(0, [7], false), FgFinishes(0), Broadcast(0), Resume(1)]
    ensures Run(INIT, run) && End(INIT, run) == s
    ensures 2 !in s.pcs && s.g.aborted && !s.g.inRead && !s.g.hasByte && !s.cancelled
  {
    run, s := WaitingAbort();
    Extend(INIT, run, s, FgReturns(0, [7], false));
    run, s := run + [FgReturns(0, [7], false)], Apply(s, FgReturns(0, [7], false));
    Extend(INIT, run, s, FgFinishes(0));
    run, s := run + [FgFinishes(0)], Apply(s, FgFinishes(0));
    Extend(INIT, run, s, Broadcast(0));
    run, s := run + [Broadcast(0)], Apply(s, Broadcast(0));
    Extend(INIT, run, s, Resume(1));
    run, s := run + [Resume(1)], Apply(s, Resume(1));
  }

  lemma WaitingAbort() returns (run: seq<Action>, s: System)
    ensures run == [SetLimit(10), Read(0, 1), Abort(1)]
    ensures Run(INIT, run) && End(INIT, run) == s
    ensures s.pcs == map[0 := FgSocket(1), 1 := Asleep] && s.g == Guarded(true, false, 0, true, 10) && !s.cancelled
  {
    s := INIT;
    Extend(INIT, [], s, SetLimit(10));
    run, s := [SetLimit(10)], Apply(s, SetLimit(10));
    Extend(INIT, run, s, Read(0, 1));
    run, s := run + [Read(0, 1)], Apply(s, Read(0, 1));
    Extend(INIT, run, s, Abort(1));
    run, s := run + [Abort(1)], Apply(s, Abort(1));
  }
}
