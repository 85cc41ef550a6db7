/** The clone cannot be felt: whatever events happen on the clone's descriptor, and whether
    or not there is a clone at all, client and member see the same session. */
module RelayNonInterference {
  import opened Relay
  import opened RelayInvariants

  /** What client and member can see of a session. */
  function Front(s: Session): Session {
    s.(flags := s.flags.(cloConnected := false, cloReadReady := false, cloWriteReady := false),
       clonefd := -1, toClone := [], clone := 0, cloneInterest := Closed)
  }

  function FrontEffects(fx: Effects): Effects {
    fx.(sentClone := [], copied := [], cloneJoins := 0, cloneDrops := 0)
  }

  predicate SameFront(a: Outcome, b: Outcome) {
    Front(a.s) == Front(b.s) && FrontEffects(a.fx) == FrontEffects(b.fx)
  }

  lemma {:induction false} BothSameFront(a: Outcome, b: Outcome, a': Outcome, b': Outcome)
    requires SameFront(a, a') && SameFront(b, b')
    ensures SameFront(Both(a, b), Both(a', b'))
  {
  }

  lemma {:induction false} DeleteSameFront(s: Session, t: Session)
    requires Front(s) == Front(t)
    ensures SameFront(DeleteSession(s), DeleteSession(t))
  {
  }

  lemma {:induction false} DisconnectCloneInvisible(s: Session)
    ensures SameFront(DisconnectClone(s), Outcome(s, QUIET))
  {
  }

  lemma {:induction false} AfterClientReadSameFront(s: Session, t: Session)
    requires Front(s) == Front(t)
    ensures Front(AfterClientRead(s)) == Front(AfterClientRead(t))
  {
  }

  lemma {:induction false} FinishFront(s: Session, data: seq<Byte>)
    ensures SameFront(FinishClientRead(s, data), Outcome(AfterClientRead(s), QUIET))
  {
    hide StrNCopy, DisconnectClone, AfterClientRead;
    DisconnectCloneInvisible(s);
    AfterClientReadSameFront(CopyToClone(s, data).s, s);
  }

  lemma {:induction false} ClientReadSameFront(s: Session, t: Session, r: ReadResult, p: Pick)
    requires Front(s) == Front(t) && !s.flags.isFresh
    ensures SameFront(ClientRead(s, r, p), ClientRead(t, r, p))
  {
    hide DeleteSession, FinishClientRead, AfterClientRead;
    DeleteSameFront(s, t);
    assert s.toMember == Front(s).toMember == t.toMember && s.flags.isFresh == Front(s).flags.isFresh == t.flags.isFresh;
    var data := Taken(r, Room(s.toMember));
    var s' := Outcome(s.(toMember := s.toMember + data), QUIET.(fromClient := data));
    var t' := Outcome(t.(toMember := t.toMember + data), QUIET.(fromClient := data));
    FinishFront(s'.s, data);
    FinishFront(t'.s, data);
    assert Front(s'.s) == Front(s).(toMember := s.toMember + data) == Front(t'.s);
    AfterClientReadSameFront(s'.s, t'.s);
    BothSameFront(s', FinishClientRead(s'.s, data), t', FinishClientRead(t'.s, data));
  }

  lemma {:induction false} AfterClientWriteSameFront(s: Session, t: Session)
    requires Front(s) == Front(t)
    ensures Front(AfterClientWrite(s)) == Front(AfterClientWrite(t))
  {
  }

  lemma {:induction false} DrainSameFront(s: Session, t: Session, n: nat)
    requires Front(s) == Front(t) && n <= |s.toClient|
    ensures t.toClient == s.toClient && Front(DrainClient(s, n)) == Front(DrainClient(t, n))
  {
    assert s.toClient == Front(s).toClient == t.toClient;
  }

  lemma {:induction false} ClientWriteSameFront(s: Session, t: Session, w: WriteResult)
    requires Front(s) == Front(t)
    ensures SameFront(ClientWrite(s, w), ClientWrite(t, w))
  {
    hide DeleteSession, AfterClientWrite, DrainClient;
    DeleteSameFront(s, t);
    assert s.toClient == Front(s).toClient == t.toClient;
    assert s.flags.memConnected == Front(s).flags.memConnected == t.flags.memConnected;
    if w.WriteOk? {
      var n := Min(w.capacity, |s.toClient|);
      DrainSameFront(s, t, n);
      DeleteSameFront(DrainClient(s, n), DrainClient(t, n));
      AfterClientWriteSameFront(DrainClient(s, n), DrainClient(t, n));
    }
  }

  lemma {:induction false} AfterMemberReadSameFront(s: Session, t: Session)
    requires Front(s) == Front(t)
    ensures Front(AfterMemberRead(s)) == Front(AfterMemberRead(t))
  {
  }

  lemma {:induction false} DisconnectMemberSameFront(s: Session, t: Session)
    requires Front(s) == Front(t)
    ensures SameFront(DisconnectMember(s), DisconnectMember(t))
  {
    assert s.memberfd == Front(s).memberfd == t.memberfd;
  }

  lemma {:induction false} MemberReadSameFront(s: Session, t: Session, r: ReadResult)
    requires Front(s) == Front(t)
    ensures SameFront(MemberRead(s, r), MemberRead(t, r))
  {
    hide DeleteSession, DisconnectMember, AfterMemberRead;
    assert s.toClient == Front(s).toClient == t.toClient;
    assert s.flags.cliWriteReady == Front(s).flags.cliWriteReady == t.flags.cliWriteReady;
    DeleteSameFront(s, t);
    DisconnectMemberSameFront(s, t);
    var data := Taken(r, Room(s.toClient));
    assert Front(s.(toClient := s.toClient + data)) == Front(s).(toClient := s.toClient + data);
    assert Front(t.(toClient := t.toClient + data)) == Front(t).(toClient := t.toClient + data);
    AfterMemberReadSameFront(s.(toClient := s.toClient + data), t.(toClient := t.toClient + data));
  }

  lemma {:induction false} MemberWriteSameFront(s: Session, t: Session, w: WriteResult)
    requires Front(s) == Front(t)
    ensures SameFront(MemberWrite(s, w), MemberWrite(t, w))
  {
    assert s.toMember == Front(s).toMember == t.toMember;
    DisconnectMemberSameFront(s, t);
    if w.WriteOk? {
      var left := s.toMember[Min(w.capacity, |s.toMember|)..];
      assert Front(s.(toMember := left)) == Front(s).(toMember := left);
      assert Front(t.(toMember := left)) == Front(t).(toMember := left);
      AfterMemberWriteSameFront(s.(toMember := left), t.(toMember := left));
    }
    hide DisconnectMember, AfterMemberWrite;
  }

  lemma {:induction false} AfterMemberWriteSameFront(s: Session, t: Session)
    requires Front(s) == Front(t)
    ensures Front(AfterMemberWrite(s)) == Front(AfterMemberWrite(t))
  {
    assert s.toMember == Front(s).toMember == t.toMember;
  }

  lemma {:induction false} ClientEventSameFront(s: Session, t: Session, rd: Option<ReadResult>, wr: Option<WriteResult>, p: Pick)
    requires Front(s) == Front(t) && !s.flags.isFresh
    ensures SameFront(ClientEvent(s, rd, wr, p), ClientEvent(t, rd, wr, p))
  {
    hide ClientRead, ClientWrite;
    if rd.Some? { ClientReadSameFront(s, t, rd.value, p); }
    var a := if rd.Some? then ClientRead(s, rd.value, p) else Outcome(s, QUIET);
    var a' := if rd.Some? then ClientRead(t, rd.value, p) else Outcome(t, QUIET);
    assert a.s.clientfd == Front(a.s).clientfd == a'.s.clientfd;
    if wr.Some? {
      var w := OnOpen(a.s.clientfd, wr.value);
      ClientWriteSameFront(a.s, a'.s, w);
      BothSameFront(a, ClientWrite(a.s, w), a', ClientWrite(a'.s, w));
    }
  }

  lemma {:induction false} MemberEventSameFront(s: Session, t: Session, rd: Option<ReadResult>, wr: Option<WriteResult>)
    requires Front(s) == Front(t)
    ensures SameFront(MemberEvent(s, rd, wr), MemberEvent(t, rd, wr))
  {
    hide MemberRead, MemberWrite;
    if rd.Some? { MemberReadSameFront(s, t, rd.value); }
    var a := if rd.Some? then MemberRead(s, rd.value) else Outcome(s, QUIET);
    var a' := if rd.Some? then MemberRead(t, rd.value) else Outcome(t, QUIET);
    assert a.s.memberfd == Front(a.s).memberfd == a'.s.memberfd;
    if wr.Some? {
      var w := OnOpen(a.s.memberfd, wr.value);
      MemberWriteSameFront(a.s, a'.s, w);
      BothSameFront(a, MemberWrite(a.s, w), a', MemberWrite(a'.s, w));
    }
  }

  predicate IsCloneEvent(e: Event) {
    e.CloneHangup? || e.CloneReady?
  }

  /** Client and member events do the same to sessions that differ only in their clone. */
  lemma {:induction false} DispatchSameFront(s: Session, t: Session, e: Event)
    requires Front(s) == Front(t) && !s.flags.isFresh && !IsCloneEvent(e)
    ensures SameFront(Dispatch(s, e), Dispatch(t, e))
  {
    hide ClientEvent, MemberEvent, DeleteSession;
    assert s.clientInterest == Front(s).clientInterest == t.clientInterest;
    assert s.memberInterest == Front(s).memberInterest == t.memberInterest;
    match e
    case ClientHangup => DeleteSameFront(s, t);
    case ClientReady(rd, wr, p) => ClientEventSameFront(s, t, rd, wr, p);
    case MemberReady(rd, wr) => MemberEventSameFront(s, t, rd, wr);
    case MemberHangup => DisconnectMemberSameFront(s, t);
  }

  lemma {:induction false} CloneReadyInvisible(s: Session, rd: Option<ReadResult>, wr: Option<WriteResult>)
    ensures SameFront(CloneEvent(s, rd, wr), Outcome(s, QUIET))
  {
    hide CloneRead, CloneWrite;
    if rd.Some? { CloneReadInvisible(s, rd.value); }
    var a := if rd.Some? then CloneRead(s, rd.value) else Outcome(s, QUIET);
    if wr.Some? {
      var w := OnOpen(a.s.clonefd, wr.value);
      CloneWriteInvisible(a.s, w);
      BothSameFront(a, CloneWrite(a.s, w), Outcome(s, QUIET), Outcome(s, QUIET));
      QuietIsUnit(QUIET);
    }
  }

  /** Clone events change nothing that client and member can see. */
  lemma {:induction false} CloneEventInvisible(s: Session, e: Event)
    requires IsCloneEvent(e)
    ensures SameFront(Dispatch(s, e), Outcome(s, QUIET))
  {
    hide DisconnectClone, CloneEvent;
    DisconnectCloneInvisible(s);
    if e.CloneReady? { CloneReadyInvisible(s, e.rd, e.wr); }
  }

  lemma {:induction false} CloneReadInvisible(s: Session, r: ReadResult)
    ensures SameFront(CloneRead(s, r), Outcome(s, QUIET))
  {
    hide DisconnectClone;
    DisconnectCloneInvisible(s);
  }

  lemma {:induction false} CloneWriteInvisible(s: Session, w: WriteResult)
    ensures SameFront(CloneWrite(s, w), Outcome(s, QUIET))
  {
  }

  lemma {:induction false} ClientReadStaysEstablished(s: Session, r: ReadResult, p: Pick)
    requires !s.flags.isFresh
    ensures !ClientRead(s, r, p).s.flags.isFresh
  {
  }

  lemma {:induction false} ClientWriteStaysEstablished(s: Session, w: WriteResult)
    requires !s.flags.isFresh
    ensures !ClientWrite(s, w).s.flags.isFresh
  {
    DeleteClears(s);
    if w.WriteOk? {
      var t := DrainClient(s, Min(w.capacity, |s.toClient|));
      DeleteClears(t);
      AfterClientWriteStays(t);
    }
    hide DeleteSession, AfterClientWrite;
  }

  lemma {:induction false} AfterClientWriteStays(s: Session)
    ensures AfterClientWrite(s).flags.isFresh == s.flags.isFresh
  {
  }

  lemma {:induction false} MemberWriteStaysEstablished(s: Session, w: WriteResult)
    requires !s.flags.isFresh
    ensures !MemberWrite(s, w).s.flags.isFresh
  {
  }

  lemma {:induction false} MemberReadStaysEstablished(s: Session, r: ReadResult)
    requires !s.flags.isFresh
    ensures !MemberRead(s, r).s.flags.isFresh
  {
  }

  lemma {:induction false} ClientEventStaysEstablished(s: Session, rd: Option<ReadResult>, wr: Option<WriteResult>, p: Pick)
    requires !s.flags.isFresh
    ensures !ClientEvent(s, rd, wr, p).s.flags.isFresh
  {
    hide ClientRead, ClientWrite;
    if rd.Some? { ClientReadStaysEstablished(s, rd.value, p); }
    var a := if rd.Some? then ClientRead(s, rd.value, p) else Outcome(s, QUIET);
    if wr.Some? { ClientWriteStaysEstablished(a.s, OnOpen(a.s.clientfd, wr.value)); }
  }

  lemma {:induction false} MemberEventStaysEstablished(s: Session, rd: Option<ReadResult>, wr: Option<WriteResult>)
    requires !s.flags.isFresh
    ensures !MemberEvent(s, rd, wr).s.flags.isFresh
  {
    hide MemberRead, MemberWrite;
    if rd.Some? { MemberReadStaysEstablished(s, rd.value); }
    var a := if rd.Some? then MemberRead(s, rd.value) else Outcome(s, QUIET);
    if wr.Some? { MemberWriteStaysEstablished(a.s, OnOpen(a.s.memberfd, wr.value)); }
  }

  lemma {:induction false} DispatchStaysEstablished(s: Session, e: Event)
    requires !s.flags.isFresh
    ensures !Dispatch(s, e).s.flags.isFresh
  {
    hide ClientEvent, MemberEvent, DeleteSession;
    match e
    case ClientHangup => DeleteClears(s);
    case ClientReady(rd, wr, p) => ClientEventStaysEstablished(s, rd, wr, p);
    case MemberReady(rd, wr) => MemberEventStaysEstablished(s, rd, wr);
    case MemberHangup =>
    case _ =>
      hide Dispatch;
      CloneEventInvisible(s, e);
      assert Dispatch(s, e).s.flags.isFresh == Front(Dispatch(s, e).s).flags.isFresh;
      assert s.flags.isFresh == Front(s).flags.isFresh;
  }

  /** The run with every clone event taken out. */
  function WithoutClone(es: seq<Event>): seq<Event> {
    if es == [] then []
    else
      var e := es[|es| - 1];
      WithoutClone(es[..|es| - 1]) + (if IsCloneEvent(e) then [] else [e])
  }

  /** A run and the same run without its clone events, from sessions that differ at most in
      their clone, agree on everything client and member can see. */
  lemma {:induction false} CloneEventsCanBeRemoved(s: Session, t: Session, es: seq<Event>)
    requires Front(s) == Front(t) && !s.flags.isFresh
    ensures SameFront(Run(s, es), Run(t, WithoutClone(es))) && !Run(s, es).s.flags.isFresh
  {
    if es != [] {
      var init := es[..|es| - 1];
      var e := es[|es| - 1];
      CloneEventsCanBeRemoved(s, t, init);
      var a := Run(s, init);
      var a' := Run(t, WithoutClone(init));
      DispatchStaysEstablished(a.s, e);
      hide Dispatch;
      if IsCloneEvent(e) {
        CloneEventInvisible(a.s, e);
        assert WithoutClone(es) == WithoutClone(init);
        BothSameFront(a, Dispatch(a.s, e), a', Outcome(a'.s, QUIET));
        QuietIsUnit(a'.fx);
      } else {
        DispatchSameFront(a.s, a'.s, e);
        BothSameFront(a, Dispatch(a.s, e), a', Dispatch(a'.s, e));
        assert WithoutClone(es)[..|WithoutClone(init)|] == WithoutClone(init);
      }
    }
  }

  lemma {:induction false} QuietIsUnit(fx: Effects)
    ensures fx.Then(QUIET) == fx
  {
    assert fx.fromClient + [] == fx.fromClient && fx.fromMember + [] == fx.fromMember;
    assert fx.sentMember + [] == fx.sentMember && fx.sentClient + [] == fx.sentClient;
    assert fx.sentClone + [] == fx.sentClone && fx.copied + [] == fx.copied;
    assert fx.lostMember + [] == fx.lostMember && fx.lostClient + [] == fx.lostClient;
  }

  /** Clone non-interference, a property of two runs: established sessions that differ at
      most in their clone, under runs that differ at most in clone events, keep the same
      client and member buffers, flags, interests, byte streams, drops and releases. */
  lemma {:induction false} CloneNonInterference(s: Session, t: Session, es: seq<Event>, fs: seq<Event>)
    requires Front(s) == Front(t) && !s.flags.isFresh
    requires WithoutClone(es) == WithoutClone(fs)
    ensures SameFront(Run(s, es), Run(t, fs))
  {
    CloneEventsCanBeRemoved(s, t, es);
    assert t.flags.isFresh == Front(t).flags.isFresh;
    CloneEventsCanBeRemoved(t, t, fs);
  }

  /** While a session is being established the clone can be felt in exactly one way: when
      its socket cannot be bound, a client whose member was reached is turned away. */
  lemma {:induction false} OnlyAnUnboundCloneRejects(s: Session, p: Pick)
    requires s.memberfd == -1 && p.memberReach.Joined?
    ensures ConnectServer(s, p).status == -1 <==> p.useClone && s.clonefd == -1 && p.cloneReach.Unbound?
  {
    assert ConnectMember(s, p).s.clonefd == s.clonefd;
  }
}
