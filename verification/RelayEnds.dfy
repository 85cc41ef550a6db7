/** What an event comes to, said of the event and the buffers alone: when it ends a session,
    when it loses the member or the clone, and how many bytes it moves. */
module RelayEnds {
  import opened Relay
  import opened RelayInvariants
  import opened RelayStreams
  import opened RelayNonInterference
  import opened RelayStale
  import opened RelayDrain

  // ----- the end of a session

  /** A read into the buffer gets nothing: an error, end of file, nothing there, no room. */
  predicate TakesNothing(r: ReadResult, buffer: seq<Byte>) {
    r.ReadSome? ==> r.available == [] || |buffer| >= MESSAGE_SIZE_LIMIT
  }

  lemma {:induction false} TakenIsNothing(r: ReadResult, buffer: seq<Byte>)
    ensures Taken(r, Room(buffer)) == [] <==> TakesNothing(r, buffer)
  {
  }

  /** The client read of the event ends the session. */
  predicate EndedByRead(s: Session, rd: Option<ReadResult>, p: Pick) {
    rd.Some? && (TakesNothing(rd.value, s.toMember) || (s.flags.isFresh && Rejects(s, p)))
  }

  /** There is a member by the time of the client write: there was one, or the first request
      has just brought one. */
  predicate MemberAtWrite(s: Session, rd: Option<ReadResult>) {
    s.flags.memConnected || (rd.Some? && s.flags.isFresh && s.memberfd == -1)
  }

  /** The client write of the event ends the session: it fails, or delivers all there is with
      the member gone. */
  predicate EndedByWrite(s: Session, rd: Option<ReadResult>, wr: Option<WriteResult>) {
    wr.Some? && (wr.value.WriteFailed? || (|s.toClient| <= wr.value.capacity && !MemberAtWrite(s, rd)))
  }

  /** Everything that ends a session. */
  predicate Ends(s: Session, e: Event) {
    match e
    case ClientHangup => true
    case ClientReady(rd, wr, p) => EndedByRead(s, rd, p) || EndedByWrite(s, rd, wr)
    case MemberReady(rd, _) =>
      s.flags.memConnected && rd.Some? && s.toClient == [] && TakesNothing(rd.value, s.toClient)
    case _ => false
  }

  lemma {:induction false} ReadBeforeWrite(s: Session, r: ReadResult, p: Pick)
    requires Live(s)
    ensures var a := ClientRead(s, r, p);
      && (a.fx.released > 0 <==> EndedByRead(s, Some(r), p))
      && (a.fx.released == 0 ==> Live(a.s) && a.s.toClient == s.toClient && a.s.clientfd == s.clientfd)
      && (a.fx.released == 0 ==> (a.s.flags.memConnected <==> MemberAtWrite(s, Some(r))))
      && (a.fx.released > 0 ==> Dead(a.s))
  {
    ClientReadReleases(s, r, p);
    TakenIsNothing(r, s.toMember);
    ClientReadKeeps(s, r, p);
    if !EndedByRead(s, Some(r), p) {
      ClientReadKeepsFd(s, r, p);
      AbsorbedMember(s, Taken(r, Room(s.toMember)), p);
    }
    hide Absorb, DeleteSession, Rejects;
  }

  lemma {:induction false} AbsorbedMember(s: Session, data: seq<Byte>, p: Pick)
    requires Live(s) && (s.flags.isFresh ==> !Rejects(s, p))
    ensures var a := Absorb(s, data, p);
      a.s.toClient == s.toClient &&
      (a.s.flags.memConnected <==> s.flags.memConnected || (s.flags.isFresh && s.memberfd == -1))
  {
    var t := s.(toMember := s.toMember + data);
    assert Rejects(t, p) == Rejects(s, p);
    if s.flags.isFresh {
      EstablishReleases(t, p);
      EstablishMember(t, p);
      EstablishKeeps(t, p);
    }
    var e := if s.flags.isFresh then Establish(t, p) else Outcome(t, QUIET);
    FinishMember(e.s, data);
    FinishConserves(e.s, data);
    hide Establish, FinishClientRead, Rejects;
  }

  lemma {:induction false} WriteEndsIff(s: Session, w: WriteResult)
    ensures ClientWrite(s, w).fx.released == 1 <==> w.WriteFailed? || (|s.toClient| <= w.capacity && !s.flags.memConnected)
    ensures ClientWrite(s, w).fx.released <= 1
  {
  }

  lemma {:induction false} ClientEventEndsIff(s: Session, rd: Option<ReadResult>, wr: Option<WriteResult>, p: Pick)
    requires Live(s)
    ensures ClientEvent(s, rd, wr, p).fx.released > 0 <==> EndedByRead(s, rd, p) || EndedByWrite(s, rd, wr)
  {
    if rd.Some? { ReadBeforeWrite(s, rd.value, p); } else { assert !EndedByRead(s, rd, p); }
    var a := if rd.Some? then ClientRead(s, rd.value, p) else Outcome(s, QUIET);
    assert a.fx.released == 0 ==> a.s.clientfd >= 0;
    if wr.Some? { WriteEndsIff(a.s, OnOpen(a.s.clientfd, wr.value)); }
    hide ClientRead, ClientWrite, EndedByRead, Dead, Live;
  }

  lemma {:induction false} MemberEventEndsIff(s: Session, rd: Option<ReadResult>, wr: Option<WriteResult>)
    requires Live(s) && s.flags.memConnected
    ensures MemberEvent(s, rd, wr).fx.released > 0 <==>
      rd.Some? && s.toClient == [] && TakesNothing(rd.value, s.toClient)
  {
    if rd.Some? { MemberReadEndsIff(s, rd.value); }
    var a := if rd.Some? then MemberRead(s, rd.value) else Outcome(s, QUIET);
    if wr.Some? { MemberWriteFd(a.s, OnOpen(a.s.memberfd, wr.value)); }
    hide MemberRead, MemberWrite;
  }

  lemma {:induction false} MemberReadEndsIff(s: Session, r: ReadResult)
    requires Live(s)
    ensures MemberRead(s, r).fx.released > 0 <==> s.toClient == [] && TakesNothing(r, s.toClient)
  {
    TakenIsNothing(r, s.toClient);
  }

  /** An event ends a live session, and gives it back, if and only if it is a client hang-up, a
      client read that gets nothing or a first request that is rejected, a client write that
      fails or delivers the last byte with the member gone, or a member read that gets
      nothing with nothing left for the client. */
  lemma {:induction false} EndsIff(s: Session, e: Event)
    requires Live(s)
    ensures Dispatch(s, e).fx.released > 0 <==> Ends(s, e)
    ensures Dead(Dispatch(s, e).s) <==> Ends(s, e)
  {
    DispatchFaithful(s, e);
    match e
    case ClientReady(rd, wr, p) => ClientEventEndsIff(s, rd, wr, p); hide ClientEvent, Dead, Live;
    case MemberReady(rd, wr) => if s.flags.memConnected { MemberEventEndsIff(s, rd, wr); } hide MemberEvent, Dead;
    case CloneReady(rd, wr) =>
      CloneEventInvisible(s, e);
      assert Dispatch(s, e).fx.released == FrontEffects(Dispatch(s, e).fx).released;
      hide CloneEvent, Dead;
    case _ =>
  }

  /** No event of the run ends the session it meets. */
  predicate Unended(s: Session, es: seq<Event>) {
    forall i :: 0 <= i < |es| ==> !Ends(Run(s, es[..i]).s, es[i])
  }

  lemma {:induction false} UnendedSplit(s: Session, es: seq<Event>)
    requires es != []
    ensures var init := es[..|es| - 1];
      Unended(s, es) <==> Unended(s, init) && !Ends(Run(s, init).s, es[|es| - 1])
  {
    hide Ends, Run;
    var init := es[..|es| - 1];
    assert forall i :: 0 <= i < |init| ==> init[..i] == es[..i] && init[i] == es[i];
  }

  /** A session has its client until the first event that ends it. */
  lemma {:induction false} LivesUntilEnded(s: Session, es: seq<Event>)
    requires Live(s)
    ensures Live(Run(s, es).s) <==> Unended(s, es)
    ensures SessionOk(Run(s, es).s)
  {
    if es != [] {
      var init := es[..|es| - 1];
      var e := es[|es| - 1];
      var t := Run(s, init).s;
      LivesUntilEnded(s, init);
      DispatchKeepsOk(t, e);
      UnendedSplit(s, es);
      hide Dispatch, Ends, Live, Dead, Unended;
      if Live(t) {
        EndsIff(t, e);
        LiveIsNotDead(Dispatch(t, e).s);
      } else {
        DeadIgnores(t, e);
      }
    }
  }

  lemma {:induction false} LiveIsNotDead(s: Session)
    ensures !(Live(s) && Dead(s))
  {
  }

  // ----- the loss of the clone

  /** How many bytes a client read brings. */
  function Arriving(s: Session, r: ReadResult): nat {
    if TakesNothing(r, s.toMember) then 0
    else Min(|r.available|, MESSAGE_SIZE_LIMIT - |s.toMember|)
  }

  /** Everything but the end of the session that costs a session its clone: a hang-up, an empty
      read from it, a failed write to it, and more bytes from the client than its buffer can
      still take. */
  predicate LosesClone(s: Session, e: Event) {
    match e
    case CloneHangup => true
    case CloneReady(rd, wr) =>
      (rd.Some? && TakesNothing(rd.value, [])) || (wr.Some? && wr.value.WriteFailed?)
    case ClientReady(rd, _, _) => rd.Some? && |s.toClone| + Arriving(s, rd.value) > MESSAGE_SIZE_LIMIT
    case _ => false
  }

  lemma {:induction false} ClientReadLosesCloneIff(s: Session, r: ReadResult, p: Pick)
    requires Live(s) && s.flags.cloConnected && !TakesNothing(r, s.toMember)
    ensures ClientRead(s, r, p).s.flags.cloConnected <==> |s.toClone| + Arriving(s, r) <= MESSAGE_SIZE_LIMIT
  {
    TakenIsNothing(r, s.toMember);
    var data := Taken(r, Room(s.toMember));
    assert |data| == Arriving(s, r);
    var t := s.(toMember := s.toMember + data);
    CopyKeepsCloneIff(t, data);
    hide FinishClientRead, Establish;
  }

  lemma {:induction false} CopyKeepsCloneIff(s: Session, data: seq<Byte>)
    requires s.flags.cloConnected && s.clonefd >= 0
    ensures FinishClientRead(s, data).s.flags.cloConnected <==> |s.toClone| + |data| <= MESSAGE_SIZE_LIMIT
  {
    hide StrNCopy;
  }

  lemma {:induction false} ClientWriteKeepsClone(s: Session, w: WriteResult)
    ensures ClientWrite(s, w).s.flags.cloConnected <==> s.flags.cloConnected && ClientWrite(s, w).fx.released == 0
  {
    if w.WriteOk? {
      var t := DrainClient(s, Min(w.capacity, |s.toClient|));
      AfterClientWriteClone(t);
      DeleteClears(t);
      DeleteLoses(t);
    }
    DeleteClears(s);
    DeleteLoses(s);
    hide DeleteSession, AfterClientWrite;
  }

  lemma {:induction false} ClientEventLosesCloneIff(s: Session, rd: Option<ReadResult>, wr: Option<WriteResult>, p: Pick)
    requires Live(s) && s.flags.cloConnected
    ensures ClientEvent(s, rd, wr, p).s.flags.cloConnected <==>
      !(EndedByRead(s, rd, p) || EndedByWrite(s, rd, wr)) && (rd.Some? ==> |s.toClone| + Arriving(s, rd.value) <= MESSAGE_SIZE_LIMIT)
  {
    assert !s.flags.isFresh && |s.toClone| <= MESSAGE_SIZE_LIMIT;
    ClientEventEndsIff(s, rd, wr, p);
    if rd.Some? {
      ReadBeforeWrite(s, rd.value, p);
      if !TakesNothing(rd.value, s.toMember) { ClientReadLosesCloneIff(s, rd.value, p); }
    }
    var a := if rd.Some? then ClientRead(s, rd.value, p) else Outcome(s, QUIET);
    assert a.fx.released > 0 ==> !a.s.flags.cloConnected;
    if wr.Some? { ClientWriteKeepsClone(a.s, OnOpen(a.s.clientfd, wr.value)); }
    hide ClientRead, ClientWrite, Live, Dead;
  }

  lemma {:induction false} CloneReadLosesIff(s: Session, r: ReadResult)
    requires s.flags.cloConnected && s.clonefd >= 0
    ensures var o := CloneRead(s, r);
      if TakesNothing(r, []) then !o.s.flags.cloConnected && o.s.clonefd == -1 else o.s == s
  {
    assert Room([]) == MESSAGE_SIZE_LIMIT;
    TakenIsNothing(r, []);
  }

  lemma {:induction false} CloneWriteLosesIff(s: Session, w: WriteResult)
    requires s.flags.cloConnected ==> s.clonefd >= 0
    ensures CloneWrite(s, w).s.flags.cloConnected <==> s.flags.cloConnected && w.WriteOk?
  {
    if w.WriteOk? {
      AfterCloneWriteKeeps(s.(toClone := s.toClone[Min(w.capacity, |s.toClone|)..]));
    }
    hide AfterCloneWrite;
  }

  lemma {:induction false} AfterCloneWriteKeeps(s: Session)
    ensures AfterCloneWrite(s).flags.cloConnected == s.flags.cloConnected
  {
  }

  lemma {:induction false} CloneEventLosesIff(s: Session, rd: Option<ReadResult>, wr: Option<WriteResult>)
    requires s.flags.cloConnected && s.clonefd >= 0
    ensures CloneEvent(s, rd, wr).s.flags.cloConnected <==>
      !(rd.Some? && TakesNothing(rd.value, [])) && !(wr.Some? && wr.value.WriteFailed?)
  {
    if rd.Some? { CloneReadLosesIff(s, rd.value); }
    var a := if rd.Some? then CloneRead(s, rd.value) else Outcome(s, QUIET);
    hide CloneRead;
    if wr.Some? { CloneWriteLosesIff(a.s, OnOpen(a.s.clonefd, wr.value)); }
    hide CloneWrite;
  }

  lemma {:induction false} MemberReadKeepsClone(s: Session, r: ReadResult)
    ensures MemberRead(s, r).s.flags.cloConnected <==> s.flags.cloConnected && MemberRead(s, r).fx.released == 0
  {
  }

  lemma {:induction false} MemberWriteKeepsClone(s: Session, w: WriteResult)
    ensures MemberWrite(s, w).s.flags.cloConnected == s.flags.cloConnected && MemberWrite(s, w).fx.released == 0
  {
  }

  lemma {:induction false} MemberEventKeepsClone(s: Session, rd: Option<ReadResult>, wr: Option<WriteResult>)
    ensures MemberEvent(s, rd, wr).s.flags.cloConnected <==> s.flags.cloConnected && MemberEvent(s, rd, wr).fx.released == 0
  {
    if rd.Some? { MemberReadKeepsClone(s, rd.value); }
    var a := if rd.Some? then MemberRead(s, rd.value) else Outcome(s, QUIET);
    if wr.Some? { MemberWriteKeepsClone(a.s, OnOpen(a.s.memberfd, wr.value)); }
    hide MemberRead, MemberWrite;
  }

  /** A session loses a connected clone at an event if and only if the event is one of those, or
      ends the session. */
  lemma {:induction false} CloneLossIff(s: Session, e: Event)
    requires Live(s) && s.flags.cloConnected
    ensures Dispatch(s, e).s.flags.cloConnected <==> !LosesClone(s, e) && !Ends(s, e)
  {
    hide ClientEvent, MemberEvent, CloneEvent, DeleteSession, DisconnectMember, Arriving, EndedByRead, EndedByWrite;
    match e
    case ClientHangup => DeleteClears(s);
    case ClientReady(rd, wr, p) => ClientEventLosesCloneIff(s, rd, wr, p);
    case MemberHangup => MemberGoneKeepsClone(s);
    case MemberReady(rd, wr) =>
      MemberEventKeepsClone(s, rd, wr);
      if s.flags.memConnected { MemberEventEndsIff(s, rd, wr); }
    case CloneHangup => assert s.clonefd >= 0;
    case CloneReady(rd, wr) => CloneEventLosesIff(s, rd, wr);
  }

  lemma {:induction false} MemberGoneKeepsClone(s: Session)
    ensures DisconnectMember(s).s.flags.cloConnected == s.flags.cloConnected
  {
  }

  /** No event of the run costs the session it meets its clone. */
  predicate CloneSpared(s: Session, es: seq<Event>) {
    forall i :: 0 <= i < |es| ==> !LosesClone(Run(s, es[..i]).s, es[i])
  }

  lemma {:induction false} CloneSparedSplit(s: Session, es: seq<Event>)
    requires es != []
    ensures var init := es[..|es| - 1];
      CloneSpared(s, es) <==> CloneSpared(s, init) && !LosesClone(Run(s, init).s, es[|es| - 1])
  {
    hide LosesClone, Run;
    var init := es[..|es| - 1];
    assert forall i :: 0 <= i < |init| ==> init[..i] == es[..i] && init[i] == es[i];
  }

  /** Over runs: a clone is still connected if and only if no event of the run cost it or ended
      the session. So, with CloneStreamFidelity, until then the clone hears everything. */
  lemma {:induction false} CloneStaysIff(s: Session, es: seq<Event>)
    requires Live(s) && s.flags.cloConnected
    ensures Run(s, es).s.flags.cloConnected <==> CloneSpared(s, es) && Unended(s, es)
    ensures SessionOk(Run(s, es).s) && !Run(s, es).s.flags.isFresh
  {
    if es != [] {
      var init := es[..|es| - 1];
      var e := es[|es| - 1];
      var t := Run(s, init).s;
      CloneStaysIff(s, init);
      DispatchKeepsOk(t, e);
      DispatchStaysEstablished(t, e);
      CloneSparedSplit(s, es);
      UnendedSplit(s, es);
      assert (t.flags.cloConnected ==> Live(t)) && Anchored(t);
      hide Dispatch, Ends, LosesClone, Live, Dead, Anchored, Unended, CloneSpared;
      if t.flags.cloConnected {
        CloneLossIff(t, e);
      } else {
        NotCloned(t, e);
      }
    }
  }

  lemma {:induction false} NotCloned(s: Session, e: Event)
    requires Anchored(s) && !s.flags.isFresh && !s.flags.cloConnected
    ensures !Dispatch(s, e).s.flags.cloConnected
  {
    DispatchCounted(s, e);
    hide Dispatch;
  }

  // ----- the loss of the member

  /** Everything but the end of the session that costs a session its member: a hang-up, a read
      from it that gets nothing, and a failed write to it. */
  predicate LosesMember(s: Session, e: Event) {
    match e
    case MemberHangup => true
    case MemberReady(rd, wr) =>
      (rd.Some? && TakesNothing(rd.value, s.toClient)) || (wr.Some? && wr.value.WriteFailed?)
    case _ => false
  }

  lemma {:induction false} MemberReadLosesIff(s: Session, r: ReadResult)
    requires Anchored(s) && s.flags.memConnected
    ensures var o := MemberRead(s, r);
      if TakesNothing(r, s.toClient) then !o.s.flags.memConnected && o.s.memberfd == -1
      else o.s.flags.memConnected && o.s.memberfd == s.memberfd
  {
    TakenIsNothing(r, s.toClient);
  }

  lemma {:induction false} MemberWriteLosesIff(s: Session, w: WriteResult)
    requires s.flags.memConnected ==> s.memberfd >= 0
    ensures MemberWrite(s, w).s.flags.memConnected <==> s.flags.memConnected && w.WriteOk?
  {
  }

  lemma {:induction false} MemberEventLosesIff(s: Session, rd: Option<ReadResult>, wr: Option<WriteResult>)
    requires Anchored(s) && s.flags.memConnected
    ensures MemberEvent(s, rd, wr).s.flags.memConnected <==>
      !(rd.Some? && TakesNothing(rd.value, s.toClient)) && !(wr.Some? && wr.value.WriteFailed?)
  {
    if rd.Some? { MemberReadLosesIff(s, rd.value); }
    var a := if rd.Some? then MemberRead(s, rd.value) else Outcome(s, QUIET);
    hide MemberRead;
    if wr.Some? { MemberWriteLosesIff(a.s, OnOpen(a.s.memberfd, wr.value)); }
    hide MemberWrite;
  }

  lemma {:induction false} ClientWriteKeepsMember(s: Session, w: WriteResult)
    ensures ClientWrite(s, w).s.flags.memConnected <==> s.flags.memConnected && ClientWrite(s, w).fx.released == 0
  {
  }

  lemma {:induction false} ClientEventKeepsMember(s: Session, rd: Option<ReadResult>, wr: Option<WriteResult>, p: Pick)
    requires Live(s) && s.flags.memConnected
    ensures ClientEvent(s, rd, wr, p).s.flags.memConnected <==> ClientEvent(s, rd, wr, p).fx.released == 0
  {
    if rd.Some? { ReadBeforeWrite(s, rd.value, p); }
    var a := if rd.Some? then ClientRead(s, rd.value, p) else Outcome(s, QUIET);
    assert a.fx.released > 0 ==> !a.s.flags.memConnected;
    assert a.fx.released == 0 ==> a.s.flags.memConnected;
    if wr.Some? { ClientWriteKeepsMember(a.s, OnOpen(a.s.clientfd, wr.value)); }
    hide ClientRead, ClientWrite, Live, Dead;
  }

  /** A session loses a connected member at an event if and only if the event is one of those,
      or ends the session. */
  lemma {:induction false} MemberLossIff(s: Session, e: Event)
    requires Live(s) && s.flags.memConnected
    ensures Dispatch(s, e).s.flags.memConnected <==> !LosesMember(s, e) && !Ends(s, e)
  {
    match e
    case ClientReady(rd, wr, p) =>
      ClientEventKeepsMember(s, rd, wr, p);
      ClientEventEndsIff(s, rd, wr, p);
      hide ClientEvent, EndedByRead, EndedByWrite;
    case MemberReady(rd, wr) =>
      MemberEventLosesIff(s, rd, wr);
      hide MemberEvent;
    case CloneReady(rd, wr) =>
      CloneEventInvisible(s, e);
      hide CloneEvent;
      var o := Dispatch(s, e);
      assert o.s.flags.memConnected == Front(o.s).flags.memConnected && s.flags.memConnected == Front(s).flags.memConnected;
    case _ =>
  }

  // ----- how much is moved

  /** A read takes what is offered, or as much of it as there is room for. */
  predicate TakesAll(r: ReadResult, room: nat, got: seq<Byte>) {
    if r.ReadSome? then got <= r.available && |got| <= room && (got == r.available || |got| == room) else got == []
  }

  /** A write sends what is pending, or as much of it as is accepted. */
  predicate SendsAll(pending: seq<Byte>, w: WriteResult, sent: seq<Byte>) {
    if w.WriteOk? then sent <= pending && |sent| <= w.capacity && (sent == pending || |sent| == w.capacity) else sent == []
  }

  lemma {:induction false} ReadTakesAll(r: ReadResult, buffer: seq<Byte>)
    requires |buffer| <= MESSAGE_SIZE_LIMIT
    ensures TakesAll(r, MESSAGE_SIZE_LIMIT - |buffer|, Taken(r, Room(buffer)))
  {
  }

  lemma {:induction false} ClientReadMoves(s: Session, r: ReadResult, p: Pick)
    requires |s.toMember| <= MESSAGE_SIZE_LIMIT
    ensures var o := ClientRead(s, r, p);
      TakesAll(r, MESSAGE_SIZE_LIMIT - |s.toMember|, o.fx.fromClient) && o.fx.sentClient == []
  {
    ReadTakesAll(r, s.toMember);
    var data := Taken(r, Room(s.toMember));
    var t := s.(toMember := s.toMember + data);
    EstablishSilent(t, p);
    FinishConserves(t, data);
    FinishConserves(Establish(t, p).s, data);
    DeleteLoses(s);
    hide Establish, FinishClientRead, DeleteSession, Taken, TakesAll;
    assert data + [] == data && data + [] + [] == data;
  }

  lemma {:induction false} EstablishSilent(s: Session, p: Pick)
    ensures Establish(s, p).fx.fromClient == [] && Establish(s, p).fx.sentClient == []
  {
  }

  lemma {:induction false} ClientWriteMoves(s: Session, w: WriteResult)
    ensures SendsAll(s.toClient, w, ClientWrite(s, w).fx.sentClient) && ClientWrite(s, w).fx.fromClient == []
  {
    if w.WriteOk? {
      var n := Min(w.capacity, |s.toClient|);
      DeleteLoses(DrainClient(s, n));
      assert s.toClient[..n] + [] == s.toClient[..n];
    }
    DeleteLoses(s);
    hide DeleteSession, AfterClientWrite;
  }

  /** A client event takes from the client all it offers and there is room for, and unless the
      read has ended the session sends it all that waits for it and is accepted. */
  lemma {:induction false} ClientMoves(s: Session, rd: Option<ReadResult>, wr: Option<WriteResult>, p: Pick)
    requires Live(s)
    ensures var o := Dispatch(s, ClientReady(rd, wr, p));
      && (if rd.Some? then TakesAll(rd.value, MESSAGE_SIZE_LIMIT - |s.toMember|, o.fx.fromClient) else o.fx.fromClient == [])
      && (if wr.Some? && !EndedByRead(s, rd, p) then SendsAll(s.toClient, wr.value, o.fx.sentClient) else o.fx.sentClient == [])
  {
    if rd.Some? { ReadBeforeWrite(s, rd.value, p); ClientReadMoves(s, rd.value, p); }
    assert !rd.Some? ==> !EndedByRead(s, rd, p);
    var a := if rd.Some? then ClientRead(s, rd.value, p) else Outcome(s, QUIET);
    assert a.fx.released > 0 ==> a.s.clientfd < 0;
    assert a.fx.fromClient + [] == a.fx.fromClient;
    if wr.Some? {
      var w := OnOpen(a.s.clientfd, wr.value);
      ClientWriteMoves(a.s, w);
      assert [] + ClientWrite(a.s, w).fx.sentClient == ClientWrite(a.s, w).fx.sentClient;
    }
    assert s.clientInterest.Watch? && s.clientfd >= 0;
    hide ClientRead, ClientWrite, Live, Dead, TakesAll, EndedByRead;
  }

  lemma {:induction false} MemberReadMoves(s: Session, r: ReadResult)
    requires |s.toClient| <= MESSAGE_SIZE_LIMIT
    ensures var o := MemberRead(s, r);
      && TakesAll(r, MESSAGE_SIZE_LIMIT - |s.toClient|, o.fx.fromMember) && o.fx.sentMember == []
      && (!TakesNothing(r, s.toClient) ==> o.s.toMember == s.toMember)
  {
    ReadTakesAll(r, s.toClient);
    TakenIsNothing(r, s.toClient);
    DeleteLoses(s);
    hide Taken, TakesAll, DeleteSession;
  }

  lemma {:induction false} MemberWriteMoves(s: Session, w: WriteResult)
    ensures SendsAll(s.toMember, w, MemberWrite(s, w).fx.sentMember) && MemberWrite(s, w).fx.fromMember == []
  {
  }

  /** The same between the session and its member, the write done unless the read got nothing. */
  lemma {:induction false} MemberMoves(s: Session, rd: Option<ReadResult>, wr: Option<WriteResult>)
    requires Live(s) && s.flags.memConnected
    ensures var o := Dispatch(s, MemberReady(rd, wr));
      && (if rd.Some? then TakesAll(rd.value, MESSAGE_SIZE_LIMIT - |s.toClient|, o.fx.fromMember) else o.fx.fromMember == [])
      && (if wr.Some? && !(rd.Some? && TakesNothing(rd.value, s.toClient))
          then SendsAll(s.toMember, wr.value, o.fx.sentMember) else o.fx.sentMember == [])
  {
    if rd.Some? { MemberReadMoves(s, rd.value); MemberReadLosesIff(s, rd.value); }
    var a := if rd.Some? then MemberRead(s, rd.value) else Outcome(s, QUIET);
    assert a.fx.fromMember + [] == a.fx.fromMember;
    if wr.Some? {
      var w := OnOpen(a.s.memberfd, wr.value);
      MemberWriteMoves(a.s, w);
      assert [] + MemberWrite(a.s, w).fx.sentMember == MemberWrite(a.s, w).fx.sentMember;
    }
    assert s.memberInterest.Watch? && s.memberfd >= 0;
    hide MemberRead, MemberWrite, Live, TakesAll, TakesNothing;
  }

  lemma {:induction false} CloneWriteMoves(s: Session, w: WriteResult)
    ensures SendsAll(s.toClone, w, CloneWrite(s, w).fx.sentClone)
  {
  }

  /** And to its clone. */
  lemma {:induction false} CloneMoves(s: Session, rd: Option<ReadResult>, wr: Option<WriteResult>)
    requires Live(s) && s.flags.cloConnected
    ensures var o := Dispatch(s, CloneReady(rd, wr));
      if wr.Some? && !(rd.Some? && TakesNothing(rd.value, []))
      then SendsAll(s.toClone, wr.value, o.fx.sentClone) else o.fx.sentClone == []
  {
    if rd.Some? { CloneReadLosesIff(s, rd.value); }
    var a := if rd.Some? then CloneRead(s, rd.value) else Outcome(s, QUIET);
    assert a.fx.sentClone == [];
    if wr.Some? {
      var w := OnOpen(a.s.clonefd, wr.value);
      CloneWriteMoves(a.s, w);
      assert [] + CloneWrite(a.s, w).fx.sentClone == CloneWrite(a.s, w).fx.sentClone;
    }
    assert s.cloneInterest.Watch? && s.clonefd >= 0;
    hide CloneRead, CloneWrite, Live, TakesNothing;
  }

  // ----- who a session is connected to

  /** A kept client is on its own descriptor, and what it is connected to at once is what was
      picked, on the descriptors that were opened. */
  lemma {:induction false} AcceptConnects(s: Session, fd: nat, watched: bool, setsFresh: bool, chooseNow: bool, p: Pick)
    requires Dead(s)
    ensures var o := Accept(s, fd, watched, setsFresh, chooseNow, p);
      && (o.fx.released == 0 ==> o.s.clientfd == fd && (o.s.flags.isFresh <==> setsFresh && !chooseNow))
      && (o.s.flags.memConnected ==> o.s.member == p.member && o.s.memberfd == p.newMemberfd)
      && (o.s.flags.cloConnected ==> o.s.clone == p.clone && o.s.clonefd == p.newClonefd)
  {
    var t := Greet(s, fd, watched, setsFresh);
    assert t.clientfd == fd && !t.flags.memConnected && !t.flags.cloConnected && t.flags.isFresh == setsFresh;
    EstablishConnects(t, p);
    DeleteClears(t);
    DeleteLoses(t);
    hide Establish, Greet, DeleteSession;
  }

  lemma {:induction false} EstablishConnects(s: Session, p: Pick)
    requires !s.flags.memConnected && !s.flags.cloConnected
    ensures var o := Establish(s, p);
      && (o.fx.released == 0 ==> o.s.clientfd == s.clientfd && !o.s.flags.isFresh)
      && (o.s.flags.memConnected ==> o.s.member == p.member && o.s.memberfd == p.newMemberfd)
      && (o.s.flags.cloConnected ==> o.s.clone == p.clone && o.s.clonefd == p.newClonefd)
  {
    EstablishShape(s, p);
    ConnectConnects(s, p);
    DeleteClears(s);
    DeleteLoses(s);
    DeleteClears(ConnectServer(s, p).s);
    DeleteLoses(ConnectServer(s, p).s);
    hide Establish, ConnectServer, DeleteSession;
  }

  lemma {:induction false} ConnectConnects(s: Session, p: Pick)
    requires !s.flags.memConnected && !s.flags.cloConnected
    ensures var k := ConnectServer(s, p).s;
      && k.clientfd == s.clientfd
      && (k.flags.memConnected ==> k.member == p.member && k.memberfd == p.newMemberfd)
      && (k.flags.cloConnected ==> k.clone == p.clone && k.clonefd == p.newClonefd)
  {
    ConnectShape(s, p);
    hide ConnectServer, ConnectMember, ConnectClone;
    MemberConnects(s, p);
    CloneConnectsTo(ConnectMember(s, p).s, p);
  }

  lemma {:induction false} ConnectShape(s: Session, p: Pick)
    ensures var m := ConnectMember(s, p);
      ConnectServer(s, p).s == if m.status == -1 then m.s else ConnectClone(m.s, p).s
  {
    hide ConnectMember, ConnectClone;
  }

  lemma {:induction false} MemberConnects(s: Session, p: Pick)
    requires !s.flags.memConnected && !s.flags.cloConnected
    ensures var m := ConnectMember(s, p).s;
      && m.clientfd == s.clientfd && !m.flags.cloConnected
      && (m.flags.memConnected ==> m.member == p.member && m.memberfd == p.newMemberfd)
  {
  }

  lemma {:induction false} CloneConnectsTo(s: Session, p: Pick)
    requires !s.flags.cloConnected
    ensures var k := ConnectClone(s, p).s;
      && k.clientfd == s.clientfd && k.flags.memConnected == s.flags.memConnected
      && k.member == s.member && k.memberfd == s.memberfd
      && (k.flags.cloConnected ==> k.clone == p.clone && k.clonefd == p.newClonefd)
  {
  }

  /** What a session has joined is what was picked, on the descriptor opened for it. */
  predicate OnItsDescriptors(s: Session, p: Pick) {
    && (s.flags.memConnected ==> s.member == p.member && s.memberfd == p.newMemberfd)
    && (s.flags.cloConnected ==> s.clone == p.clone && s.clonefd == p.newClonefd)
  }

  lemma {:induction false} ReadConnects(s: Session, r: ReadResult, p: Pick)
    requires !s.flags.memConnected && !s.flags.cloConnected
    ensures OnItsDescriptors(ClientRead(s, r, p).s, p)
  {
    var data := Taken(r, Room(s.toMember));
    var t := s.(toMember := s.toMember + data);
    EstablishConnects(t, p);
    var e := if s.flags.isFresh then Establish(t, p) else Outcome(t, QUIET);
    FinishKeepsServers(e.s, data);
    DeleteClears(s);
    hide Establish, FinishClientRead, DeleteSession;
  }

  lemma {:induction false} FinishKeepsServers(s: Session, data: seq<Byte>)
    ensures var t := FinishClientRead(s, data).s;
      && t.flags.memConnected == s.flags.memConnected && t.member == s.member && t.memberfd == s.memberfd
      && (t.flags.cloConnected ==> s.flags.cloConnected && t.clone == s.clone && t.clonefd == s.clonefd)
  {
    hide StrNCopy;
  }

  lemma {:induction false} WriteKeepsServers(s: Session, w: WriteResult)
    ensures var t := ClientWrite(s, w).s;
      && (t.flags.memConnected ==> s.flags.memConnected && t.member == s.member && t.memberfd == s.memberfd)
      && (t.flags.cloConnected ==> s.flags.cloConnected && t.clone == s.clone && t.clonefd == s.clonefd)
  {
    DeleteClears(s);
    if w.WriteOk? {
      var t := DrainClient(s, Min(w.capacity, |s.toClient|));
      DeleteClears(t);
      AfterClientWriteServers(t);
    }
    hide DeleteSession, AfterClientWrite;
  }

  lemma {:induction false} AfterClientWriteServers(s: Session)
    ensures var t := AfterClientWrite(s);
      && t.flags.memConnected == s.flags.memConnected && t.member == s.member && t.memberfd == s.memberfd
      && t.flags.cloConnected == s.flags.cloConnected && t.clone == s.clone && t.clonefd == s.clonefd
  {
  }

  /** The same for the first request of a fresh session. */
  lemma {:induction false} FirstRequestConnects(s: Session, rd: Option<ReadResult>, wr: Option<WriteResult>, p: Pick)
    requires Live(s) && s.flags.isFresh
    ensures OnItsDescriptors(Dispatch(s, ClientReady(rd, wr, p)).s, p)
  {
    assert !s.flags.memConnected && !s.flags.cloConnected && s.clientInterest.Watch?;
    if rd.Some? { ReadConnects(s, rd.value, p); }
    var a := if rd.Some? then ClientRead(s, rd.value, p) else Outcome(s, QUIET);
    if wr.Some? { WriteKeepsServers(a.s, OnOpen(a.s.clientfd, wr.value)); }
    hide ClientRead, ClientWrite, Live;
  }

  /** What connect_server returns: -1 exactly for a member that is not reached or a wanted clone
      whose socket cannot be bound, 1 exactly for a wanted clone that is missed in another
      way, 0 otherwise. */
  lemma {:induction false} ConnectStatusExact(s: Session, p: Pick)
    ensures var wanted := p.useClone && s.clonefd == -1;
      ConnectServer(s, p).status ==
        if !PastMember(s, p) || (wanted && p.cloneReach.Unbound?) then -1
        else if wanted && !p.cloneReach.Joined? then 1 else 0
  {
    MemberFirst(s, p);
    hide ConnectMember;
  }
}
