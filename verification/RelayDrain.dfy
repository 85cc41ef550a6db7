/** How a session ends: what becomes of a session that has lost its member, and how often an
    ending session is given back. */
module RelayDrain {
  import opened Relay
  import opened RelayInvariants
  import opened RelayStreams
  import opened RelayNonInterference
  import opened RelayStale

  // ----- after the member is gone

  /** A live session that has lost its member (and is not waiting for one). */
  predicate Orphan(s: Session) {
    Live(s) && !s.flags.memConnected && !s.flags.isFresh
  }

  /** The client neither closes nor fails, and epoll reports only what it was asked for. */
  predicate Patient(s: Session, e: Event) {
    && Solicited(s, e) && !e.ClientHangup?
    && (e.ClientReady? && e.rd.Some? ==> e.rd.value.ReadSome? && e.rd.value.available != [])
    && (e.ClientReady? && e.wr.Some? ==> e.wr.value.WriteOk?)
  }

  predicate PatientRun(s: Session, es: seq<Event>) {
    forall i :: 0 <= i < |es| ==> Patient(Run(s, es[..i]).s, es[i])
  }

  predicate IsClientWrite(e: Event) {
    e.ClientReady? && e.wr.Some?
  }

  function ClientWrites(es: seq<Event>): nat {
    if es == [] then 0
    else ClientWrites(es[..|es| - 1]) + (if IsClientWrite(es[|es| - 1]) then 1 else 0)
  }

  lemma {:induction false} OrphanReads(s: Session, r: ReadResult, p: Pick)
    requires Orphan(s) && r.ReadSome? && r.available != [] && |s.toMember| < MESSAGE_SIZE_LIMIT
    ensures var o := ClientRead(s, r, p);
      && Orphan(o.s) && o.s.toClient == s.toClient && o.s.clientfd == s.clientfd
      && o.fx.released == 0 && o.fx.sentClient == [] && o.fx.lostClient == []
  {
    ClientReadKeeps(s, r, p);
    ClientReadCounted(s, r, p);
    ClientReadStaysEstablished(s, r, p);
    var data := Taken(r, Room(s.toMember));
    var t := s.(toMember := s.toMember + data);
    FinishConserves(t, data);
    FinishKeepsClient(t, data);
    hide FinishClientRead, Live;
  }

  lemma {:induction false} FinishKeepsClient(s: Session, data: seq<Byte>)
    ensures FinishClientRead(s, data).s.clientfd == s.clientfd
  {
  }

  lemma {:induction false} OrphanWrites(s: Session, w: WriteResult)
    requires Orphan(s) && w.WriteOk? && s.toClient != []
    ensures var o := ClientWrite(s, w); var n := Min(w.capacity, |s.toClient|);
      && 0 < n && o.fx.sentClient == s.toClient[..n] && o.fx.lostClient == []
      && (if n == |s.toClient| then o.fx.released == 1
          else o.fx.released == 0 && Orphan(o.s) && o.s.toClient == s.toClient[n..])
  {
    ClientWriteKeeps(s, w);
    var n := Min(w.capacity, |s.toClient|);
    if n == |s.toClient| {
      DeleteLoses(DrainClient(s, n));
      hide DeleteSession;
      assert s.toClient[..n] + [] == s.toClient[..n] && [] + s.toClient[n..] == [];
    }
  }

  /** One event on an orphan with bytes for the client: the bytes advance or nothing
      happens to them, and the session is released exactly when the last one leaves. */
  predicate Drains(s: Session, o: Outcome) {
    && o.fx.lostClient == []
    && (if o.fx.released == 0 then
          Orphan(o.s) && o.s.toClient != [] && s.toClient == o.fx.sentClient + o.s.toClient
        else o.fx.released == 1 && o.fx.sentClient == s.toClient)
  }

  /** Nothing of the bytes for the client has moved. */
  predicate Untouched(s: Session, a: Outcome) {
    && Orphan(a.s) && a.s.toClient == s.toClient && a.s.clientfd == s.clientfd
    && a.fx.released == 0 && a.fx.sentClient == [] && a.fx.lostClient == []
  }

  lemma {:induction false} WriteDrains(s: Session, a: Outcome, w: WriteResult)
    requires Untouched(s, a) && s.toClient != [] && w.WriteOk?
    ensures var o := Both(a, ClientWrite(a.s, w));
      Drains(s, o) && (o.fx.released == 1 || |o.s.toClient| < |s.toClient|)
  {
    OrphanWrites(a.s, w);
    hide ClientWrite, Orphan;
    var n := Min(w.capacity, |s.toClient|);
    var sent := s.toClient[..n];
    assert [] + sent == sent && sent + s.toClient[n..] == s.toClient;
    assert n == |s.toClient| ==> sent == s.toClient;
  }

  lemma {:induction false} ClientEventDrains(s: Session, rd: Option<ReadResult>, wr: Option<WriteResult>, p: Pick)
    requires Orphan(s) && s.toClient != [] && Patient(s, ClientReady(rd, wr, p))
    ensures var o := ClientEvent(s, rd, wr, p);
      Drains(s, o) && (wr.Some? ==> o.fx.released == 1 || |o.s.toClient| < |s.toClient|)
  {
    if rd.Some? { OrphanReads(s, rd.value, p); }
    hide ClientRead, ClientWrite;
    var a := if rd.Some? then ClientRead(s, rd.value, p) else Outcome(s, QUIET);
    assert Untouched(s, a) && s.clientfd >= 0;
    hide Orphan, Both;
    if wr.Some? {
      WriteDrains(s, a, wr.value);
    } else {
      assert [] + s.toClient == s.toClient;
    }
  }

  lemma {:induction false} OtherEventsSpare(s: Session, e: Event)
    requires Orphan(s) && !e.ClientReady? && !e.ClientHangup?
    ensures var o := Dispatch(s, e);
      Orphan(o.s) && o.s.toClient == s.toClient && o.fx.released == 0 && o.fx.sentClient == [] && o.fx.lostClient == []
  {
    if IsCloneEvent(e) {
      DispatchKeepsOk(s, e);
      CloneEventInvisible(s, e);
      hide Dispatch;
      var o := Dispatch(s, e);
      assert o.s.toClient == Front(o.s).toClient && s.toClient == Front(s).toClient;
      assert o.s.flags.cliConnected == Front(o.s).flags.cliConnected && s.flags.cliConnected == Front(s).flags.cliConnected;
      assert o.s.flags.memConnected == Front(o.s).flags.memConnected && s.flags.memConnected == Front(s).flags.memConnected;
      assert o.s.flags.isFresh == Front(o.s).flags.isFresh && s.flags.isFresh == Front(s).flags.isFresh;
      assert o.fx.released == FrontEffects(o.fx).released && o.fx.sentClient == FrontEffects(o.fx).sentClient;
      assert o.fx.lostClient == FrontEffects(o.fx).lostClient;
    }
  }

  lemma {:induction false} DispatchDrains(s: Session, e: Event)
    requires Orphan(s) && s.toClient != [] && Patient(s, e)
    ensures Drains(s, Dispatch(s, e))
    ensures IsClientWrite(e) ==> Dispatch(s, e).fx.released == 1 || |Dispatch(s, e).s.toClient| < |s.toClient|
  {
    if e.ClientReady? {
      ClientEventDrains(s, e.rd, e.wr, e.pick);
      hide ClientEvent, Drains;
    } else {
      OtherEventsSpare(s, e);
      hide Dispatch;
      assert [] + s.toClient == s.toClient;
    }
  }

  lemma {:induction false} DeadIgnores(s: Session, e: Event)
    requires Dead(s)
    ensures Dispatch(s, e) == Outcome(s, QUIET)
  {
  }

  lemma {:induction false} PatientPrefix(s: Session, es: seq<Event>)
    requires es != [] && PatientRun(s, es)
    ensures PatientRun(s, es[..|es| - 1]) && Patient(Run(s, es[..|es| - 1]).s, es[|es| - 1])
  {
    hide Run, Patient;
    var init := es[..|es| - 1];
    assert forall i :: 0 <= i < |init| ==> init[..i] == es[..i] && init[i] == es[i];
  }

  lemma {:induction false} BothDrain(s: Session, a: Outcome, b: Outcome)
    requires Drains(s, a) && (if a.fx.released == 0 then Drains(a.s, b) else b == Outcome(a.s, QUIET))
    ensures Drains(s, Both(a, b))
  {
    hide Orphan;
    assert a.fx.sentClient + (b.fx.sentClient + b.s.toClient) == (a.fx.sentClient + b.fx.sentClient) + b.s.toClient;
    assert a.fx.sentClient + [] == a.fx.sentClient;
  }

  /** Graceful drain. Once the member is gone and bytes for the client are buffered, any
      run in which the client neither closes nor errors delivers every one of them before
      the session is released, once. Each client write makes the buffer shorter, so as many
      client writes as there are bytes are always enough. */
  lemma {:induction false} GracefulDrain(s: Session, es: seq<Event>)
    requires Orphan(s) && s.toClient != [] && PatientRun(s, es)
    ensures var o := Run(s, es);
      && Drains(s, o)
      && (o.fx.released == 0 ==> ClientWrites(es) + |o.s.toClient| <= |s.toClient|)
      && (o.fx.released > 0 ==> Dead(o.s))
    ensures ClientWrites(es) >= |s.toClient| ==> Run(s, es).fx.released == 1
  {
    if es == [] {
      assert [] + s.toClient == s.toClient;
    } else {
      hide Dispatch, Patient, Dead, Orphan, PatientRun, Conserved;
      PatientPrefix(s, es);
      var e := es[|es| - 1];
      var a := Run(s, es[..|es| - 1]);
      GracefulDrain(s, es[..|es| - 1]);
      if a.fx.released == 0 {
        DispatchDrains(a.s, e);
        OrphanFaithful(a.s, e);
      } else {
        DeadIgnores(a.s, e);
      }
      BothDrain(s, a, Dispatch(a.s, e));
    }
  }

  lemma {:induction false} OrphanFaithful(s: Session, e: Event)
    requires Orphan(s)
    ensures Dispatch(s, e).fx.released > 0 ==> Dead(Dispatch(s, e).s)
  {
    hide Dispatch, Live, Dead, Conserved;
    DispatchFaithful(s, e);
  }

  /** An orphan with nothing to deliver is not released by any such run: only the client
      can end it. */
  lemma {:induction false} OrphanLingers(s: Session, es: seq<Event>)
    requires Orphan(s) && s.toClient == [] && PatientRun(s, es)
    ensures var o := Run(s, es); Orphan(o.s) && o.s.toClient == [] && o.fx.released == 0
  {
    if es != [] {
      PatientPrefix(s, es);
      var e := es[|es| - 1];
      var a := Run(s, es[..|es| - 1]);
      OrphanLingers(s, es[..|es| - 1]);
      if e.ClientReady? {
        if e.rd.Some? { OrphanReads(a.s, e.rd.value, e.pick); }
        hide ClientRead;
      } else {
        OtherEventsSpare(a.s, e);
        hide Dispatch;
      }
    }
  }

  /** After the loss of the member a session can be released without the client's doing if
      and only if bytes for the client are still buffered. */
  lemma {:induction false} ReleasedIffBytesRemain(s: Session)
    requires Orphan(s)
    ensures (exists es :: PatientRun(s, es) && Run(s, es).fx.released > 0) <==> s.toClient != []
  {
    if s.toClient == [] {
      forall es | PatientRun(s, es) ensures Run(s, es).fx.released == 0 {
        OrphanLingers(s, es);
      }
    } else {
      var e := ClientReady(None, Some(WriteOk(MESSAGE_SIZE_LIMIT)), PickOf(ClientHangup));
      assert [e][..0] == [] && [e][0] == e;
      assert PatientRun(s, [e]);
      DispatchDrains(s, e);
      assert Run(s, [e]).fx.released == 1 by {
        OrphanWrites(s, WriteOk(MESSAGE_SIZE_LIMIT));
        assert Run(s, []) == Outcome(s, QUIET);
      }
    }
  }

  /** How a member is lost. End of file or an error on a read leaves an orphan only with
      bytes to deliver and releases the session otherwise; a hang-up or a failed write
      leaves an orphan in every case, so also one that lingers. */
  lemma {:induction false} MemberLoss(s: Session, r: ReadResult)
    requires Live(s) && s.flags.memConnected && !s.flags.isFresh && !r.ReadSome?
    ensures var o := MemberRead(s, r);
      if s.toClient == [] then o.fx.released == 1 else Orphan(o.s) && o.s.toClient == s.toClient && o.fx.released == 0
    ensures Orphan(Dispatch(s, MemberHangup).s) && Dispatch(s, MemberHangup).s.toClient == s.toClient
    ensures MemberWrite(s, WriteFailed) == Dispatch(s, MemberHangup)
  {
    DispatchKeepsOk(s, MemberHangup);
    hide DeleteSession;
    DeleteLoses(s);
  }

  // ----- how often a session is given back

  /** A read ends the session: nothing was taken, or a first request is rejected. */
  predicate ReadEnds(s: Session, r: ReadResult, p: Pick) {
    Taken(r, Room(s.toMember)) == [] || (s.flags.isFresh && Rejects(s, p))
  }

  /** An event brings a read that ends the session together with readiness to write. */
  predicate EndsTwice(s: Session, e: Event) {
    e.ClientReady? && e.rd.Some? && e.wr.Some? && ReadEnds(s, e.rd.value, e.pick)
  }

  /** One event gives a session back at most twice, and twice exactly when it brings both a
      read that ends the session and readiness to write. */
  lemma {:induction false} ReleaseCount(s: Session, e: Event)
    requires Live(s)
    ensures Dispatch(s, e).fx.released <= 2
    ensures Dispatch(s, e).fx.released == 2 <==> EndsTwice(s, e)
  {
    match e
    case ClientReady(rd, wr, p) =>
      if rd.Some? { ClientReadReleases(s, rd.value, p); ClientReadKeeps(s, rd.value, p); }
      hide ClientRead;
      var a := if rd.Some? then ClientRead(s, rd.value, p) else Outcome(s, QUIET);
      if wr.Some? { ClientWriteReleases(a.s, OnOpen(a.s.clientfd, wr.value)); }
      hide ClientWrite, ReadEnds;
    case MemberReady(rd, wr) =>
      if rd.Some? { MemberReadReleases(s, rd.value); }
      hide MemberRead;
    case CloneReady(rd, wr) =>
      CloneEventInvisible(s, e);
      assert Dispatch(s, e).fx.released == FrontEffects(Dispatch(s, e).fx).released;
    case _ =>
  }

  /** The event by which it happens: the client closes while bytes wait for it. */
  const CLOSES_WHILE_WAITING := ClientReady(Some(ReadEof), Some(WriteOk(1)), Pick(false, 0, Unreachable, 0, false, 0, Unreachable, 0))

  /** Epoll can report an event that gives a session back twice if and only if bytes wait for
      the client and there is room for bytes from it. */
  lemma {:induction false} DoubleReleaseIff(s: Session)
    requires Live(s)
    ensures (exists e :: Solicited(s, e) && Dispatch(s, e).fx.released == 2) <==>
      s.toClient != [] && |s.toMember| < MESSAGE_SIZE_LIMIT
  {
    if s.toClient != [] && |s.toMember| < MESSAGE_SIZE_LIMIT {
      ReleaseCount(s, CLOSES_WHILE_WAITING);
      hide Dispatch;
      assert Solicited(s, CLOSES_WHILE_WAITING) && Dispatch(s, CLOSES_WHILE_WAITING).fx.released == 2;
    } else {
      forall e ensures !(Solicited(s, e) && Dispatch(s, e).fx.released == 2) {
        ReleaseCount(s, e);
        hide Dispatch;
      }
    }
  }

  lemma {:induction false} MemberReadReleases(s: Session, r: ReadResult)
    ensures MemberRead(s, r).fx.released <= 1
  {
  }

  lemma {:induction false} ClientWriteReleases(s: Session, w: WriteResult)
    ensures ClientWrite(s, w).fx.released <= 1
    ensures w.WriteFailed? ==> ClientWrite(s, w).fx.released == 1
  {
  }

  /** When a client read ends a session, fresh or established: at an error, at end of file,
      with nothing to take or no room to take it, and when a first request is rejected. */
  lemma {:induction false} ClientReadReleases(s: Session, r: ReadResult, p: Pick)
    ensures ClientRead(s, r, p).fx.released == if ReadEnds(s, r, p) then 1 else 0
    ensures Taken(r, Room(s.toMember)) == [] <==>
      (r.ReadSome? ==> r.available == [] || |s.toMember| >= MESSAGE_SIZE_LIMIT)
  {
    var data := Taken(r, Room(s.toMember));
    var t := s.(toMember := s.toMember + data);
    assert Rejects(t, p) == Rejects(s, p);
    FinishConserves(t, data);
    EstablishReleases(t, p);
    FinishConserves(Establish(t, p).s, data);
    hide FinishClientRead, Establish, Rejects;
  }

  // ----- with the guard checked again

  /** The second handler, when the descriptor is still the one of the session. */
  function Guarded(a: Outcome, same: bool, b: Outcome): Outcome {
    if same then Both(a, b) else a
  }

  /** The dispatch with the ownership guard of main checked again before the second handler. */
  function GuardedDispatch(s: Session, e: Event): Outcome {
    match e
    case ClientReady(rd, Some(w), p) =>
      var a := if rd.Some? then ClientRead(s, rd.value, p) else Outcome(s, QUIET);
      if s.clientInterest.Watch? then Guarded(a, a.s.clientfd == s.clientfd, ClientWrite(a.s, w)) else Outcome(s, QUIET)
    case MemberReady(rd, Some(w)) =>
      var a := if rd.Some? then MemberRead(s, rd.value) else Outcome(s, QUIET);
      if s.memberInterest.Watch? then Guarded(a, a.s.memberfd == s.memberfd, MemberWrite(a.s, w)) else Outcome(s, QUIET)
    case CloneReady(rd, Some(w)) =>
      var a := if rd.Some? then CloneRead(s, rd.value) else Outcome(s, QUIET);
      if s.cloneInterest.Watch? then Guarded(a, a.s.clonefd == s.clonefd, CloneWrite(a.s, w)) else Outcome(s, QUIET)
    case _ => Dispatch(s, e)
  }

  /** A first handler, a second one that gives back at most once and does nothing at all or
      only that when the first has closed the descriptor. */
  lemma {:induction false} GuardOnce(a: Outcome, same: bool, b: Outcome)
    requires a.fx.released <= 1 && b.fx.released <= 1
    requires if same then a.fx.released == 0 else b == Outcome(a.s, QUIET.(released := b.fx.released))
    requires !same && a.fx.released == 0 ==> b.fx.released == 0
    ensures var d := Both(a, b); Guarded(a, same, b) == Outcome(d.s, d.fx.(released := Min(d.fx.released, 1)))
  {
    QuietIsUnit(a.fx);
  }

  /** The guard changes one thing only: no event gives a session back twice. */
  lemma {:induction false} GuardReleasesOnce(s: Session, e: Event)
    requires SessionOk(s)
    ensures var d := Dispatch(s, e);
      GuardedDispatch(s, e) == Outcome(d.s, d.fx.(released := Min(d.fx.released, 1)))
  {
    hide ClientRead, ClientWrite, MemberRead, MemberWrite, CloneRead, CloneWrite, Both, ReadEnds;
    match e
    case ClientReady(rd, wr, p) =>
      if Live(s) {
        if rd.Some? { ReadThenClient(s, rd.value, p); }
        var a := if rd.Some? then ClientRead(s, rd.value, p) else Outcome(s, QUIET);
        if wr.Some? {
          var w := OnOpen(a.s.clientfd, wr.value);
          ClientWriteReleases(a.s, w);
          GuardOnce(a, a.s.clientfd == s.clientfd, ClientWrite(a.s, w));
        }
      }
    case MemberReady(rd, wr) =>
      if s.memberInterest.Watch? {
        if rd.Some? { MemberReadReleases(s, rd.value); MemberReadFd(s, rd.value); }
        var a := if rd.Some? then MemberRead(s, rd.value) else Outcome(s, QUIET);
        if wr.Some? {
          var w := OnOpen(a.s.memberfd, wr.value);
          MemberWriteFd(a.s, w);
          GuardOnce(a, a.s.memberfd == s.memberfd, MemberWrite(a.s, w));
        }
      }
    case CloneReady(rd, wr) =>
      if s.cloneInterest.Watch? {
        if rd.Some? { CloneReadFd(s, rd.value); }
        var a := if rd.Some? then CloneRead(s, rd.value) else Outcome(s, QUIET);
        if wr.Some? {
          var w := OnOpen(a.s.clonefd, wr.value);
          CloneWriteFd(a.s, w);
          GuardOnce(a, a.s.clonefd == s.clonefd, CloneWrite(a.s, w));
        }
      }
    case _ =>
  }

  lemma {:induction false} ReadThenClient(s: Session, r: ReadResult, p: Pick)
    requires Live(s)
    ensures var a := ClientRead(s, r, p);
      && a.fx.released <= 1
      && (a.fx.released == 0 ==> a.s.clientfd == s.clientfd)
      && (a.fx.released == 1 ==> a.s.clientfd < 0 && ClientWrite(a.s, WriteFailed) == Outcome(a.s, QUIET.(released := 1)))
  {
    ClientReadReleases(s, r, p);
    ClientReadKeeps(s, r, p);
    if ReadEnds(s, r, p) { DeadWrite(ClientRead(s, r, p).s); } else { ClientReadKeepsFd(s, r, p); }
    hide ClientRead, ClientWrite, ReadEnds;
  }

  lemma {:induction false} ClientReadKeepsFd(s: Session, r: ReadResult, p: Pick)
    requires ClientRead(s, r, p).fx.released == 0
    ensures ClientRead(s, r, p).s.clientfd == s.clientfd
  {
  }

  lemma {:induction false} DeadWrite(s: Session)
    requires Dead(s)
    ensures ClientWrite(s, WriteFailed) == Outcome(s, QUIET.(released := 1))
  {
  }

  lemma {:induction false} MemberReadFd(s: Session, r: ReadResult)
    requires Anchored(s) && s.flags.memConnected
    ensures var a := MemberRead(s, r);
      if a.fx.released == 0 then a.s.memberfd == s.memberfd || a.s.memberfd == -1 else a.s.memberfd == -1
  {
  }

  lemma {:induction false} MemberWriteFd(s: Session, w: WriteResult)
    ensures MemberWrite(s, w).fx.released == 0
    ensures s.memberfd < 0 ==> MemberWrite(s, WriteFailed) == Outcome(s, QUIET)
  {
  }

  lemma {:induction false} CloneReadFd(s: Session, r: ReadResult)
    ensures CloneRead(s, r).s.clonefd == s.clonefd || CloneRead(s, r).s.clonefd == -1
    ensures CloneRead(s, r).fx.released == 0
  {
  }

  lemma {:induction false} CloneWriteFd(s: Session, w: WriteResult)
    ensures CloneWrite(s, w).fx.released == 0
    ensures s.clonefd < 0 ==> CloneWrite(s, WriteFailed) == Outcome(s, QUIET)
  {
  }
}
