/**
 * What the calls of a connection reader answer, in any reachable state, said in terms of what has happened: who is
 * reading, the bytes taken and delivered, the limit and the bytes counted against it.
 */
module ConnAnswers {
  import opened ConnReaders

  ghost predicate SomeoneReads(s: System)
  {
    exists u :: u in s.pcs && s.pcs[u].Reading()
  }

  lemma ReadingShows(run: seq<Action>)
    requires Run(INIT, run)
    ensures End(INIT, run).g.inRead <==> SomeoneReads(End(INIT, run))
  {
    RunSafe(INIT, run);
  }

  /** When nobody reads, a byte is waiting exactly if one was taken and not delivered, and then it is that one. */
  lemma WaitingByte(run: seq<Action>)
    requires Run(INIT, run) && !SomeoneReads(End(INIT, run))
    ensures var s := End(INIT, run);
            && !s.g.inRead
            && (s.g.hasByte <==> s.taken != s.delivered)
            && (s.g.hasByte ==> s.taken == s.delivered + [s.g.byteBuf])
  {
    RunSafe(INIT, run);
    StreamIsKept(run);
    var s := End(INIT, run);
    if s.g.hasByte {
      assert |s.taken| == |s.delivered| + 1;
    }
  }

  /** What Read answers at its entry, said without the reader's own fields. */
  ghost predicate AnswersAsMeant(s: System, want: nat)
  {
    var r := ReadSection(s.g, want).1;
    var open := !SomeoneReads(s) && s.foreground < s.limit;
    && (r.ReadPanics? <==> SomeoneReads(s))
    && (r.ReadEOF? <==> !SomeoneReads(s) && s.foreground >= s.limit)
    && (r.ReadNothing? <==> open && want == 0)
    && (r.Handed? <==> open && want > 0 && s.taken != s.delivered)
    && (r.Handed? ==> s.taken == s.delivered + [r.b])
    && (r.ToSocket? <==> open && want > 0 && s.taken == s.delivered)
    && (r.ToSocket? ==> r.max == if want <= s.limit - s.foreground then want else s.limit - s.foreground)
  }

  lemma FieldsTell(s: System, want: nat)
    requires s.g.inRead <==> SomeoneReads(s)
    requires LimitAccounted(s)
    requires !s.g.inRead ==> (s.g.hasByte <==> s.taken != s.delivered)
    requires !s.g.inRead && s.g.hasByte ==> s.taken == s.delivered + [s.g.byteBuf]
    ensures AnswersAsMeant(s, want)
  {
  }

  /**
   * The five answers of Read at its entry, in every run that sets limits as conn.go does. It answers end of file
   * exactly if nobody reads and the foreground bytes since the limit was set have reached the limit; nothing, only
   * for an empty buffer below the limit; the waiting byte if there is one; and otherwise it goes to the socket for
   * as much as the buffer and the limit allow.
   */
  lemma ReadAnswers(run: seq<Action>, want: nat)
    requires OrderlyRun(INIT, run)
    ensures Run(INIT, run)
    ensures AnswersAsMeant(End(INIT, run), want)
  {
    DeliveredWithinBudget(run);
    ReadingShows(run);
    if !SomeoneReads(End(INIT, run)) {
      WaitingByte(run);
    }
    FieldsTell(End(INIT, run), want);
  }

  /** startBackgroundRead panics during a read, has nothing to do while a byte is waiting, and starts otherwise. */
  lemma StartAnswers(run: seq<Action>)
    requires Run(INIT, run)
    ensures var s := End(INIT, run);
            var r := StartSection(s.g).1;
            && (r.StartPanics? <==> SomeoneReads(s))
            && (r.AlreadyBuffered? <==> !SomeoneReads(s) && s.taken != s.delivered)
            && (r.Started? <==> !SomeoneReads(s) && s.taken == s.delivered)
  {
    ReadingShows(run);
    if !SomeoneReads(End(INIT, run)) {
      WaitingByte(run);
    }
  }

  /** abortPendingRead returns at once exactly if nobody reads, and never, at once or after waiting, during a read. */
  lemma AbortReturnsOnlyWithoutRead(run: seq<Action>, t: nat)
    requires Run(INIT, run)
    ensures var s := End(INIT, run);
            && (Enabled(s, Abort(t)) ==> (t !in Apply(s, Abort(t)).pcs <==> !SomeoneReads(s)))
            && (Enabled(s, Resume(t)) ==> (t !in Apply(s, Resume(t)).pcs <==> !SomeoneReads(s)))
  {
    RunSafe(INIT, run);
  }

  // ---- When the connection's context is cancelled ----

  /** The end of a read cancels it exactly if the read failed, save for the timeout of a read while the flag was up. */
  lemma ReadEndCancelsIff(run: seq<Action>, t: nat)
    requires Run(INIT, run) && t in End(INIT, run).pcs
    ensures var s := End(INIT, run);
            && (s.pcs[t].FgHolds? ==> (Apply(s, FgFinishes(t)).cancelled <==> s.cancelled || s.pcs[t].failed))
            && (s.pcs[t].BgHolds? ==>
                  (Apply(s, BgFinishes(t)).cancelled <==>
                     || s.cancelled || s.pcs[t].err == OtherError
                     || (s.pcs[t].err == Timeout && !HitSince(INIT, run, false) && !HitSince(INIT, run, true))))
  {
    FlagIsExact(run);
  }

  lemma OnlyReadEndsCancel(s: System, a: Action)
    requires Enabled(s, a) && !a.FgFinishes? && !a.BgFinishes?
    ensures Apply(s, a).cancelled == s.cancelled
  {
  }
}
