/** Sessions that cannot be served: without the fresh mark, or with the descriptor of a server
    left over that was reached and could not be watched. */
module RelayStale {
  import opened Relay
  import opened RelayInvariants
  import opened RelayStreams
  import opened RelayNonInterference

  /** A member descriptor is left over although no member is connected: connect_server will
      not try again. */
  predicate LeftOver(s: Session) {
    !s.flags.memConnected && s.memberfd != -1
  }

  predicate Stale(s: Session) {
    Anchored(s) && LeftOver(s)
  }

  /** The same for the clone. */
  predicate LeftOverClone(s: Session) {
    !s.flags.cloConnected && s.clonefd != -1
  }

  predicate StaleClone(s: Session) {
    Anchored(s) && LeftOverClone(s)
  }

  /** No member, and no first request that would lead to one. */
  predicate Unservable(s: Session) {
    Anchored(s) && !s.flags.memConnected && (s.flags.isFresh ==> s.memberfd != -1)
  }

  /** Nothing is joined and nothing is passed on. */
  predicate Unserved(o: Outcome) {
    o.fx.memberJoins == 0 && o.fx.sentMember == []
  }

  lemma {:induction false} EstablishStale(s: Session, p: Pick)
    ensures Stale(s) ==> Stale(Establish(s, p).s) && Unserved(Establish(s, p))
    ensures StaleClone(s) ==> StaleClone(Establish(s, p).s) && Establish(s, p).fx.cloneJoins == 0
  {
    if Anchored(s) { EstablishCounted(s, p); }
  }

  lemma {:induction false} FinishStale(s: Session, data: seq<Byte>)
    ensures Stale(s) ==> Stale(FinishClientRead(s, data).s) && Unserved(FinishClientRead(s, data))
    ensures StaleClone(s) ==> StaleClone(FinishClientRead(s, data).s) && FinishClientRead(s, data).fx.cloneJoins == 0
  {
    if Anchored(s) { FinishReadCounted(s, data); }
    FinishConserves(s, data);
  }

  lemma {:induction false} ClientReadStale(s: Session, r: ReadResult, p: Pick)
    ensures Stale(s) ==> Stale(ClientRead(s, r, p).s) && Unserved(ClientRead(s, r, p))
    ensures StaleClone(s) ==> StaleClone(ClientRead(s, r, p).s) && ClientRead(s, r, p).fx.cloneJoins == 0
  {
    var data := Taken(r, Room(s.toMember));
    var t := s.(toMember := s.toMember + data);
    EstablishStale(t, p);
    var e := if s.flags.isFresh then Establish(t, p) else Outcome(t, QUIET);
    FinishStale(e.s, data);
    hide Establish, FinishClientRead;
  }

  lemma {:induction false} ClientWriteStale(s: Session, w: WriteResult)
    ensures Stale(s) ==> Stale(ClientWrite(s, w).s) && Unserved(ClientWrite(s, w))
    ensures StaleClone(s) ==> StaleClone(ClientWrite(s, w).s) && ClientWrite(s, w).fx.cloneJoins == 0
  {
    if Anchored(s) { ClientWriteOnlyDrops(s, w); }
  }

  lemma {:induction false} MemberEventStaleClone(s: Session, rd: Option<ReadResult>, wr: Option<WriteResult>)
    requires StaleClone(s) && s.flags.memConnected
    ensures StaleClone(MemberEvent(s, rd, wr).s) && MemberEvent(s, rd, wr).fx.cloneJoins == 0
  {
    MemberEventCounted(s, rd, wr);
    if rd.Some? { MemberReadClonefd(s, rd.value); }
    hide MemberRead;
  }

  lemma {:induction false} MemberReadClonefd(s: Session, r: ReadResult)
    requires !s.flags.cloConnected
    ensures MemberRead(s, r).s.clonefd == s.clonefd && !MemberRead(s, r).s.flags.cloConnected
  {
  }

  /** No event makes a stale session usable again. */
  lemma {:induction false} DispatchStale(s: Session, e: Event)
    ensures Stale(s) ==> Stale(Dispatch(s, e).s) && Unserved(Dispatch(s, e))
    ensures StaleClone(s) ==> StaleClone(Dispatch(s, e).s) && Dispatch(s, e).fx.cloneJoins == 0
  {
    match e
    case ClientReady(rd, wr, p) =>
      if rd.Some? { ClientReadStale(s, rd.value, p); }
      hide ClientRead;
      var a := if rd.Some? then ClientRead(s, rd.value, p) else Outcome(s, QUIET);
      if wr.Some? { ClientWriteStale(a.s, OnOpen(a.s.clientfd, wr.value)); }
      hide ClientWrite;
    case MemberReady(rd, wr) =>
      if StaleClone(s) && s.flags.memConnected { MemberEventStaleClone(s, rd, wr); }
      hide MemberEvent;
    case CloneReady(rd, wr) =>
      if Anchored(s) { DispatchCounted(s, e); }
      CloneEventInvisible(s, e);
      hide CloneEvent;
      var o := Dispatch(s, e);
      assert o.s.flags.memConnected == Front(o.s).flags.memConnected && s.flags.memConnected == Front(s).flags.memConnected;
      assert o.s.memberfd == Front(o.s).memberfd && s.memberfd == Front(s).memberfd;
      assert o.fx.sentMember == FrontEffects(o.fx).sentMember && o.fx.memberJoins == FrontEffects(o.fx).memberJoins;
    case _ =>
  }

  lemma {:induction false} AcceptStale(s: Session, fd: nat, watched: bool, setsFresh: bool, chooseNow: bool, p: Pick)
    ensures var o := Accept(s, fd, watched, setsFresh, chooseNow, p);
      && (Stale(s) ==> Stale(o.s) && Unserved(o))
      && (StaleClone(s) ==> StaleClone(o.s) && o.fx.cloneJoins == 0)
  {
    EstablishStale(Greet(s, fd, watched, setsFresh), p);
    hide Establish;
  }

  /** A session that is not fresh, or has a member descriptor left over, never gets a member
      whatever its client does, and nothing the client sends is ever passed on. */
  lemma {:induction false} NeverServed(s: Session, es: seq<Event>)
    requires Unservable(s)
    ensures Unservable(Run(s, es).s) && Unserved(Run(s, es))
  {
    if es != [] {
      var e := es[|es| - 1];
      var a := Run(s, es[..|es| - 1]);
      NeverServed(s, es[..|es| - 1]);
      DispatchStale(a.s, e);
      if !a.s.flags.isFresh {
        DispatchCounted(a.s, e);
        DispatchStaysEstablished(a.s, e);
        DispatchSendsNothing(a.s, e);
      }
      hide Dispatch, Anchored;
    }
  }

  lemma {:induction false} DispatchSendsNothing(s: Session, e: Event)
    requires Anchored(s) && !s.flags.memConnected && !s.flags.isFresh
    ensures Dispatch(s, e).fx.sentMember == []
  {
    match e
    case ClientReady(rd, wr, p) =>
      if rd.Some? { ClientReadSendsNothing(s, rd.value, p); }
      hide ClientRead;
    case CloneReady(rd, wr) =>
      CloneEventInvisible(s, e);
      assert Dispatch(s, e).fx.sentMember == FrontEffects(Dispatch(s, e).fx).sentMember;
    case _ =>
  }

  lemma {:induction false} ClientReadSendsNothing(s: Session, r: ReadResult, p: Pick)
    requires !s.flags.isFresh
    ensures ClientRead(s, r, p).fx.sentMember == []
  {
  }

  /** As the source stands, no allocation marks a session fresh, so under HASH and STATIC,
      where the server is to be chosen at the first request, no accepted client is served. */
  lemma {:induction false} DeferredChoiceNeverServes(s: Session, fd: nat, p: Pick, es: seq<Event>)
    requires Dead(s)
    ensures var o := Run(Accept(s, fd, true, false, false, p).s, es);
      !o.s.flags.memConnected && o.fx.sentMember == []
  {
    NeverServed(Accept(s, fd, true, false, false, p).s, es);
  }

  /** A live session without a member can come to have one if and only if it is fresh and no
      member descriptor is left over from an earlier client. */
  lemma {:induction false} ServedIffFresh(s: Session)
    requires Live(s) && !s.flags.memConnected
    ensures (exists es :: Run(s, es).s.flags.memConnected) <==> s.flags.isFresh && s.memberfd == -1
  {
    if s.flags.isFresh && s.memberfd == -1 {
      var p := Pick(true, 0, Joined, 0, false, 0, Unreachable, 0);
      FirstRequestServes(s, p);
    } else {
      forall es ensures !Run(s, es).s.flags.memConnected {
        NeverServed(s, es);
      }
    }
  }

  lemma {:induction false} FirstRequestServes(s: Session, p: Pick)
    requires Live(s) && s.flags.isFresh && s.memberfd == -1
    requires p.chosen && p.memberReach.Joined? && !p.useClone
    ensures exists es :: Run(s, es).s.flags.memConnected
  {
    FirstByte(s, p);
    hide Absorb, Run, Dispatch, Live;
    AbsorbServes(s, [1], p);
    assert Run(s, [ClientReady(Some(ReadSome([1])), None, p)]).s.flags.memConnected;
  }

  lemma {:induction false} FirstByte(s: Session, p: Pick)
    requires s.toMember == [] && s.clientInterest.Watch?
    ensures Run(s, [ClientReady(Some(ReadSome([1])), None, p)]).s == Absorb(s, [1], p).s
  {
    RunOne(s, ClientReady(Some(ReadSome([1])), None, p));
    hide Absorb, DeleteSession, Run;
    assert Taken(ReadSome([1]), Room(s.toMember)) == [1];
  }

  lemma {:induction false} RunOne(s: Session, e: Event)
    ensures Run(s, [e]).s == Dispatch(s, e).s
  {
    hide Dispatch;
    assert [e][..0] == [] && Run(s, []) == Outcome(s, QUIET);
  }

  lemma {:induction false} AbsorbServes(s: Session, data: seq<Byte>, p: Pick)
    requires Live(s) && s.flags.isFresh && s.memberfd == -1
    requires p.chosen && p.memberReach.Joined? && !p.useClone
    ensures Absorb(s, data, p).s.flags.memConnected
  {
    var t := s.(toMember := s.toMember + data);
    assert ConnectServer(t, p).s.flags.memConnected && ConnectServer(t, p).status == 0;
    var e := Establish(t, p);
    assert e.s.flags.memConnected && e.fx.released == 0;
    FinishReadCounted(e.s, data);
    hide Establish, FinishClientRead;
  }

  /** The selection or the connection to what was selected fails: there is no member, the
      member is not reached, or a wanted clone has a socket that cannot be bound. */
  predicate Rejects(s: Session, p: Pick) {
    || !p.chosen
    || (s.memberfd == -1 && !p.memberReach.Joined?)
    || (p.useClone && s.clonefd == -1 && p.cloneReach.Unbound?)
  }

  lemma {:induction false} EstablishReleases(s: Session, p: Pick)
    ensures Establish(s, p).fx.released == if Rejects(s, p) then 1 else 0
  {
    assert ConnectMember(s, p).s.clonefd == s.clonefd;
  }

  /** What becomes of a client accepted into an unused session. It is kept exactly when it can
      be watched and, with the choice made at once, is not rejected; it gets a member at once
      exactly when no member descriptor was left over; and the session is left stale
      exactly when it was, or a member was reached that cannot be watched. */
  lemma {:induction false} AcceptOutcome(s: Session, fd: nat, watched: bool, setsFresh: bool, chooseNow: bool, p: Pick)
    requires Dead(s)
    ensures var o := Accept(s, fd, watched, setsFresh, chooseNow, p);
      && (o.fx.released == 0 <==> watched && (chooseNow ==> !Rejects(s, p)))
      && (o.fx.released == 0 <==> o.s.flags.cliConnected)
      && (o.s.flags.memConnected <==> o.fx.released == 0 && chooseNow && s.memberfd == -1)
      && (Stale(o.s) <==> s.memberfd != -1 || (watched && chooseNow && p.chosen && p.memberReach.Unwatched?))
  {
    var t := Greet(s, fd, watched, setsFresh);
    assert Rejects(t, p) == Rejects(s, p) && t.memberfd == s.memberfd && !t.flags.memConnected;
    EstablishReleases(t, p);
    AcceptCounted(s, fd, watched, setsFresh, chooseNow, p);
    EstablishClient(t, p);
    EstablishMember(t, p);
    DeleteKeepsMember(t);
    DeleteClears(t);
    hide Establish, Rejects, Greet, DeleteSession, Counted, JoinsPick;
  }

  lemma {:induction false} EstablishClient(s: Session, p: Pick)
    requires s.flags.cliConnected
    ensures Establish(s, p).s.flags.cliConnected <==> Establish(s, p).fx.released == 0
  {
  }

  lemma {:induction false} EstablishMember(s: Session, p: Pick)
    requires !s.flags.memConnected
    ensures var o := Establish(s, p);
      && (o.s.flags.memConnected <==> o.fx.released == 0 && s.memberfd == -1)
      && (LeftOver(o.s) <==> s.memberfd != -1 || (p.chosen && p.memberReach.Unwatched?))
  {
    var k := ConnectServer(s, p);
    ConnectedMember(s, p);
    DeleteKeepsMember(s);
    DeleteKeepsMember(k.s);
    hide ConnectServer, DeleteSession;
  }

  lemma {:induction false} ConnectedMember(s: Session, p: Pick)
    requires !s.flags.memConnected
    ensures var k := ConnectServer(s, p);
      && (k.s.flags.memConnected <==> s.memberfd == -1 && p.memberReach.Joined?)
      && (k.s.flags.memConnected ==> k.s.memberfd >= 0)
      && (s.memberfd == -1 && !p.memberReach.Joined? ==> k.status == -1)
      && (!k.s.flags.memConnected ==> (k.s.memberfd != -1 <==> s.memberfd != -1 || p.memberReach.Unwatched?))
  {
    var m := ConnectMember(s, p);
    assert ConnectClone(m.s, p).s.memberfd == m.s.memberfd;
    assert ConnectClone(m.s, p).s.flags.memConnected == m.s.flags.memConnected;
  }

  lemma {:induction false} DeleteKeepsMember(s: Session)
    ensures var d := DeleteSession(s);
      && !d.s.flags.memConnected && d.fx.released == 1
      && d.s.memberfd == if s.flags.memConnected && s.memberfd >= 0 then -1 else s.memberfd
  {
  }

  /** How a descriptor comes to be left over later on: exactly when the first request of a
      fresh session leads to a member that is reached and cannot be watched. */
  lemma {:induction false} DispatchGoesStaleIff(s: Session, e: Event)
    requires Live(s) && !Stale(s)
    ensures Stale(Dispatch(s, e).s) <==>
      && e.ClientReady? && e.rd.Some? && Taken(e.rd.value, Room(s.toMember)) != []
      && s.flags.isFresh && e.pick.chosen && e.pick.memberReach.Unwatched?
  {
    DispatchCounted(s, e);
    match e
    case ClientReady(rd, wr, p) =>
      if rd.Some? { ClientReadStaleIff(s, rd.value, p); }
      hide ClientRead;
      var a := if rd.Some? then ClientRead(s, rd.value, p) else Outcome(s, QUIET);
      if wr.Some? { ClientWriteMember(a.s, OnOpen(a.s.clientfd, wr.value)); }
      hide ClientWrite;
    case MemberReady(rd, wr) =>
      if s.flags.memConnected { MemberEventMember(s, rd, wr); }
      hide MemberEvent;
    case CloneReady(rd, wr) =>
      CloneEventInvisible(s, e);
      hide CloneEvent;
      var o := Dispatch(s, e);
      assert o.s.flags.memConnected == Front(o.s).flags.memConnected && s.flags.memConnected == Front(s).flags.memConnected;
      assert o.s.memberfd == Front(o.s).memberfd && s.memberfd == Front(s).memberfd;
    case _ =>
  }

  lemma {:induction false} ClientReadStaleIff(s: Session, r: ReadResult, p: Pick)
    requires Live(s) && !LeftOver(s)
    ensures LeftOver(ClientRead(s, r, p).s) <==>
      Taken(r, Room(s.toMember)) != [] && s.flags.isFresh && p.chosen && p.memberReach.Unwatched?
    ensures Anchored(ClientRead(s, r, p).s)
  {
    ClientReadCounted(s, r, p);
    var data := Taken(r, Room(s.toMember));
    var t := s.(toMember := s.toMember + data);
    DeleteKeepsMember(s);
    if s.flags.isFresh { EstablishMember(t, p); }
    var e := if s.flags.isFresh then Establish(t, p) else Outcome(t, QUIET);
    FinishMember(e.s, data);
    hide Establish, FinishClientRead, DeleteSession;
  }

  lemma {:induction false} FinishMember(s: Session, data: seq<Byte>)
    ensures FinishClientRead(s, data).s.memberfd == s.memberfd
    ensures FinishClientRead(s, data).s.flags.memConnected == s.flags.memConnected
  {
  }

  lemma {:induction false} ClientWriteMember(s: Session, w: WriteResult)
    requires Anchored(s)
    ensures LeftOver(ClientWrite(s, w).s) <==> LeftOver(s)
  {
  }

  lemma {:induction false} MemberEventMember(s: Session, rd: Option<ReadResult>, wr: Option<WriteResult>)
    requires Anchored(s) && s.flags.memConnected
    ensures !LeftOver(MemberEvent(s, rd, wr).s)
  {
    if rd.Some? { MemberReadMember(s, rd.value); MemberReadCounted(s, rd.value); }
    hide MemberRead;
    var a := if rd.Some? then MemberRead(s, rd.value) else Outcome(s, QUIET);
    if wr.Some? { MemberWriteMember(a.s, OnOpen(a.s.memberfd, wr.value)); }
    hide MemberWrite;
  }

  lemma {:induction false} MemberReadMember(s: Session, r: ReadResult)
    requires Anchored(s) && s.flags.memConnected
    ensures !LeftOver(MemberRead(s, r).s)
  {
  }

  lemma {:induction false} MemberWriteMember(s: Session, w: WriteResult)
    requires Anchored(s) && !LeftOver(s)
    ensures !LeftOver(MemberWrite(s, w).s)
  {
  }

  /** Some client accepted into the session, and some run of it, has a member. */
  predicate ServesBy(s: Session, setsFresh: bool, chooseNow: bool, fd: nat, p: Pick, es: seq<Event>) {
    Run(Accept(s, fd, true, setsFresh, chooseNow, p).s, es).s.flags.memConnected
  }

  /** An unused session can serve a client again if and only if no member descriptor is left
      over in it and the server is chosen at once or the client is marked fresh. */
  lemma {:induction false} ReusableIff(s: Session, setsFresh: bool, chooseNow: bool)
    requires Dead(s)
    ensures (exists fd, p, es :: ServesBy(s, setsFresh, chooseNow, fd, p, es)) <==>
      s.memberfd == -1 && (chooseNow || setsFresh)
  {
    if s.memberfd == -1 && (chooseNow || setsFresh) {
      var p := Pick(true, 0, Joined, 0, false, 0, Unreachable, 0);
      AcceptOutcome(s, 0, true, setsFresh, chooseNow, p);
      AcceptKeepsOk(s, 0, true, setsFresh, chooseNow, p);
      var t := Accept(s, 0, true, setsFresh, chooseNow, p).s;
      if chooseNow {
        assert Run(t, []) == Outcome(t, QUIET);
        assert ServesBy(s, setsFresh, chooseNow, 0, p, []);
      } else {
        FirstRequestServes(t, p);
        var es :| Run(t, es).s.flags.memConnected;
        assert ServesBy(s, setsFresh, chooseNow, 0, p, es);
      }
    } else {
      forall fd: nat, p, es ensures !ServesBy(s, setsFresh, chooseNow, fd, p, es) {
        AcceptOutcome(s, fd, true, setsFresh, chooseNow, p);
        AcceptCounted(s, fd, true, setsFresh, chooseNow, p);
        NeverServed(Accept(s, fd, true, setsFresh, chooseNow, p).s, es);
      }
    }
  }

  // ----- a session that is never cloned

  /** No clone, and no first request that would lead to one. */
  predicate Unclonable(s: Session) {
    Anchored(s) && !s.flags.cloConnected && (s.flags.isFresh ==> s.clonefd != -1)
  }

  /** A session that is not fresh, or has a clone descriptor left over, never gets a clone. */
  lemma {:induction false} NeverCloned(s: Session, es: seq<Event>)
    requires Unclonable(s)
    ensures Unclonable(Run(s, es).s) && Run(s, es).fx.cloneJoins == 0
  {
    if es != [] {
      var e := es[|es| - 1];
      var a := Run(s, es[..|es| - 1]);
      NeverCloned(s, es[..|es| - 1]);
      DispatchStale(a.s, e);
      if !a.s.flags.isFresh {
        DispatchCounted(a.s, e);
        DispatchStaysEstablished(a.s, e);
      }
      hide Dispatch, Anchored;
    }
  }

  lemma {:induction false} ConnectedClone(s: Session, p: Pick)
    requires !s.flags.cloConnected
    ensures !PastMember(s, p) ==>
      ConnectServer(s, p).status == -1 && ConnectServer(s, p).s.clonefd == s.clonefd && !ConnectServer(s, p).s.flags.cloConnected
    ensures PastMember(s, p) ==> ConnectServer(s, p).s == ConnectClone(ConnectMember(s, p).s, p).s
    ensures PastMember(s, p) ==> ConnectServer(s, p).status == ConnectClone(ConnectMember(s, p).s, p).status
    ensures ConnectMember(s, p).s.clonefd == s.clonefd && !ConnectMember(s, p).s.flags.cloConnected
  {
    MemberFirst(s, p);
    hide ConnectMember, ConnectClone;
  }

  /** connect_server gets as far as the clone. */
  predicate PastMember(s: Session, p: Pick) {
    s.memberfd == -1 ==> p.memberReach.Joined?
  }

  lemma {:induction false} MemberFirst(s: Session, p: Pick)
    ensures var m := ConnectMember(s, p);
      && m.s.clonefd == s.clonefd && m.s.flags.cloConnected == s.flags.cloConnected
      && (m.status == -1 <==> s.memberfd == -1 && !p.memberReach.Joined?)
  {
  }

  lemma {:induction false} CloneConnects(s: Session, p: Pick)
    requires !s.flags.cloConnected
    ensures var k := ConnectClone(s, p);
      && (k.s.flags.cloConnected <==> p.useClone && s.clonefd == -1 && p.cloneReach.Joined?)
      && (k.s.flags.cloConnected ==> k.s.clonefd >= 0 && k.status == 0)
      && (LeftOverClone(k.s) <==> s.clonefd != -1 || (p.useClone && p.cloneReach.Unwatched?))
  {
  }

  lemma {:induction false} DeleteKeepsClone(s: Session)
    ensures var d := DeleteSession(s);
      && !d.s.flags.cloConnected && d.fx.released == 1
      && d.s.clonefd == if s.flags.cloConnected && s.clonefd >= 0 then -1 else s.clonefd
  {
  }

  /** The clone has been reached, on the way to a member or past one, and cannot be watched. */
  predicate UnwatchedClone(s: Session, p: Pick) {
    p.chosen && p.useClone && p.cloneReach.Unwatched? && PastMember(s, p)
  }

  lemma {:induction false} EstablishClone(s: Session, p: Pick)
    requires !s.flags.cloConnected
    ensures var o := Establish(s, p);
      && (o.s.flags.cloConnected <==> o.fx.released == 0 && p.useClone && s.clonefd == -1 && p.cloneReach.Joined?)
      && (LeftOverClone(o.s) <==> s.clonefd != -1 || UnwatchedClone(s, p))
  {
    var k := ConnectServer(s, p);
    ConnectedClone(s, p);
    CloneConnects(ConnectMember(s, p).s, p);
    DeleteKeepsClone(s);
    DeleteKeepsClone(k.s);
    EstablishShape(s, p);
    var past := PastMember(s, p);
    hide Establish, ConnectServer, ConnectMember, ConnectClone, DeleteSession, PastMember;
    if p.chosen && past {
      assert UnwatchedClone(s, p) <==> p.useClone && p.cloneReach.Unwatched?;
    } else {
      assert !UnwatchedClone(s, p);
    }
  }

  lemma {:induction false} EstablishShape(s: Session, p: Pick)
    ensures var o, k := Establish(s, p), ConnectServer(s, p);
      if !p.chosen then o == DeleteSession(s)
      else if k.status == -1 then o.s == DeleteSession(k.s).s && o.fx.released == DeleteSession(k.s).fx.released
      else o.s == k.s.(flags := k.s.flags.(isFresh := false)) && o.fx.released == 0
  {
    hide ConnectServer, DeleteSession;
  }

  /** A client accepted into an unused session has a clone at once exactly when it is kept,
      the choice was immediate, the wanted clone was joined and no clone descriptor was left
      over; whether a member descriptor is left over plays no part. A clone descriptor is
      left over afterwards exactly when it was, or a clone was reached that cannot be
      watched; and unlike with a member, the client is then kept. */
  lemma {:induction false} AcceptCloneOutcome(s: Session, fd: nat, watched: bool, setsFresh: bool, chooseNow: bool, p: Pick)
    requires Dead(s)
    ensures var o := Accept(s, fd, watched, setsFresh, chooseNow, p);
      && (o.s.flags.cloConnected <==>
            o.fx.released == 0 && chooseNow && p.useClone && s.clonefd == -1 && p.cloneReach.Joined?)
      && (StaleClone(o.s) <==> s.clonefd != -1 || (watched && chooseNow && UnwatchedClone(s, p)))
      && (watched && chooseNow && UnwatchedClone(s, p) ==> o.fx.released == 0)
  {
    var t := Greet(s, fd, watched, setsFresh);
    assert UnwatchedClone(t, p) == UnwatchedClone(s, p) && t.clonefd == s.clonefd && !t.flags.cloConnected;
    assert Rejects(t, p) == Rejects(s, p) && (UnwatchedClone(s, p) ==> !Rejects(s, p));
    AcceptCounted(s, fd, watched, setsFresh, chooseNow, p);
    EstablishClone(t, p);
    EstablishReleases(t, p);
    DeleteKeepsClone(t);
    hide Establish, Greet, DeleteSession, Counted, JoinsPick, Rejects, UnwatchedClone;
  }

  /** How a clone descriptor comes to be left over later on: exactly when the first request of
      a fresh session leads past a member to a clone that is reached and cannot be watched. */
  lemma {:induction false} DispatchGoesStaleCloneIff(s: Session, e: Event)
    requires Live(s) && !StaleClone(s)
    ensures StaleClone(Dispatch(s, e).s) <==>
      && e.ClientReady? && e.rd.Some? && Taken(e.rd.value, Room(s.toMember)) != []
      && s.flags.isFresh && UnwatchedClone(s, e.pick)
  {
    DispatchCounted(s, e);
    match e
    case ClientReady(rd, wr, p) =>
      if rd.Some? { ClientReadStaleCloneIff(s, rd.value, p); }
      hide ClientRead;
      var a := if rd.Some? then ClientRead(s, rd.value, p) else Outcome(s, QUIET);
      if wr.Some? { ClientWriteClone(a.s, OnOpen(a.s.clientfd, wr.value)); }
      hide ClientWrite, UnwatchedClone;
    case MemberReady(rd, wr) =>
      if s.flags.memConnected { MemberEventClone(s, rd, wr); }
      hide MemberEvent;
    case CloneReady(rd, wr) =>
      if s.flags.cloConnected { CloneEventClone(s, rd, wr); }
      hide CloneEvent;
    case _ =>
  }

  lemma {:induction false} ClientReadStaleCloneIff(s: Session, r: ReadResult, p: Pick)
    requires Live(s) && !LeftOverClone(s)
    ensures LeftOverClone(ClientRead(s, r, p).s) <==>
      Taken(r, Room(s.toMember)) != [] && s.flags.isFresh && UnwatchedClone(s, p)
    ensures Anchored(ClientRead(s, r, p).s)
  {
    ClientReadCounted(s, r, p);
    var data := Taken(r, Room(s.toMember));
    var t := s.(toMember := s.toMember + data);
    assert UnwatchedClone(t, p) == UnwatchedClone(s, p);
    DeleteKeepsClone(s);
    if s.flags.isFresh { EstablishClone(t, p); EstablishCounted(t, p); EstablishReleases(t, p); }
    var e := if s.flags.isFresh then Establish(t, p) else Outcome(t, QUIET);
    FinishClone(e.s, data);
    hide Establish, FinishClientRead, DeleteSession;
  }

  lemma {:induction false} FinishClone(s: Session, data: seq<Byte>)
    requires Anchored(s)
    ensures LeftOverClone(FinishClientRead(s, data).s) <==> LeftOverClone(s)
  {
    hide StrNCopy;
  }

  lemma {:induction false} ClientWriteClone(s: Session, w: WriteResult)
    requires Anchored(s)
    ensures LeftOverClone(ClientWrite(s, w).s) <==> LeftOverClone(s)
  {
    DeleteKeepsClone(s);
    if w.WriteOk? {
      var t := DrainClient(s, Min(w.capacity, |s.toClient|));
      DeleteKeepsClone(t);
      AfterClientWriteLeaves(t);
    }
    hide DeleteSession, AfterClientWrite;
  }

  lemma {:induction false} AfterClientWriteLeaves(s: Session)
    ensures LeftOverClone(AfterClientWrite(s)) <==> LeftOverClone(s)
  {
  }

  lemma {:induction false} MemberReadClone(s: Session, r: ReadResult)
    requires Anchored(s)
    ensures LeftOverClone(MemberRead(s, r).s) <==> LeftOverClone(s)
  {
  }

  lemma {:induction false} MemberEventClone(s: Session, rd: Option<ReadResult>, wr: Option<WriteResult>)
    requires Anchored(s)
    ensures LeftOverClone(MemberEvent(s, rd, wr).s) <==> LeftOverClone(s)
  {
    if rd.Some? { MemberReadClone(s, rd.value); }
    var a := if rd.Some? then MemberRead(s, rd.value) else Outcome(s, QUIET);
    if wr.Some? { MemberWriteClone(a.s, OnOpen(a.s.memberfd, wr.value)); }
    hide MemberRead, MemberWrite;
  }

  lemma {:induction false} MemberWriteClone(s: Session, w: WriteResult)
    ensures LeftOverClone(MemberWrite(s, w).s) <==> LeftOverClone(s)
  {
  }

  lemma {:induction false} CloneEventClone(s: Session, rd: Option<ReadResult>, wr: Option<WriteResult>)
    requires Anchored(s) && s.flags.cloConnected
    ensures !LeftOverClone(CloneEvent(s, rd, wr).s)
  {
  }

  lemma {:induction false} FirstRequestClones(s: Session, p: Pick)
    requires Live(s) && s.flags.isFresh && s.clonefd == -1
    requires p.chosen && p.memberReach.Joined? && p.useClone && p.cloneReach.Joined?
    ensures exists es :: Run(s, es).s.flags.cloConnected
  {
    FirstByte(s, p);
    hide Absorb, Run, Dispatch, Live;
    AbsorbClones(s, [1], p);
    assert Run(s, [ClientReady(Some(ReadSome([1])), None, p)]).s.flags.cloConnected;
  }

  lemma {:induction false} AbsorbClones(s: Session, data: seq<Byte>, p: Pick)
    requires Live(s) && s.flags.isFresh && s.clonefd == -1 && |data| <= MESSAGE_SIZE_LIMIT
    requires p.chosen && p.memberReach.Joined? && p.useClone && p.cloneReach.Joined?
    ensures Absorb(s, data, p).s.flags.cloConnected
  {
    var t := s.(toMember := s.toMember + data);
    assert !Rejects(t, p);
    EstablishReleases(t, p);
    EstablishClone(t, p);
    FirstChoice(t, p);
    CopyFits(Establish(t, p).s, data);
    hide Establish, FinishClientRead, Rejects;
  }

  lemma {:induction false} CopyFits(s: Session, data: seq<Byte>)
    requires s.toClone == [] && |data| <= MESSAGE_SIZE_LIMIT
    ensures FinishClientRead(s, data).s.flags.cloConnected == s.flags.cloConnected
    ensures FinishClientRead(s, data).fx.released == 0
  {
    hide StrNCopy;
  }

  /** A live session without a clone can come to have one if and only if it is fresh and no
      clone descriptor is left over. */
  lemma {:induction false} ClonedIffFresh(s: Session)
    requires Live(s) && !s.flags.cloConnected
    ensures (exists es :: Run(s, es).s.flags.cloConnected) <==> s.flags.isFresh && s.clonefd == -1
  {
    if s.flags.isFresh && s.clonefd == -1 {
      FirstRequestClones(s, Pick(true, 0, Joined, 0, true, 0, Joined, 0));
    } else {
      forall es ensures !Run(s, es).s.flags.cloConnected {
        NeverCloned(s, es);
      }
    }
  }

  /** Some client accepted into the session, and some run of it, has a clone. */
  predicate ClonesBy(s: Session, setsFresh: bool, chooseNow: bool, fd: nat, p: Pick, es: seq<Event>) {
    Run(Accept(s, fd, true, setsFresh, chooseNow, p).s, es).s.flags.cloConnected
  }

  /** An unused session can be cloned again if and only if no clone descriptor is left over in
      it and the servers are chosen at once or the client is marked fresh. */
  lemma {:induction false} ReclonableIff(s: Session, setsFresh: bool, chooseNow: bool)
    requires Dead(s)
    ensures (exists fd, p, es :: ClonesBy(s, setsFresh, chooseNow, fd, p, es)) <==>
      s.clonefd == -1 && (chooseNow || setsFresh)
  {
    if s.clonefd == -1 && (chooseNow || setsFresh) {
      var p := Pick(true, 0, Joined, 0, true, 0, Joined, 0);
      AcceptOutcome(s, 0, true, setsFresh, chooseNow, p);
      AcceptCloneOutcome(s, 0, true, setsFresh, chooseNow, p);
      AcceptKeepsOk(s, 0, true, setsFresh, chooseNow, p);
      var t := Accept(s, 0, true, setsFresh, chooseNow, p).s;
      if chooseNow {
        assert Run(t, []) == Outcome(t, QUIET);
        assert ClonesBy(s, setsFresh, chooseNow, 0, p, []);
      } else {
        FirstRequestClones(t, p);
        var es :| Run(t, es).s.flags.cloConnected;
        assert ClonesBy(s, setsFresh, chooseNow, 0, p, es);
      }
    } else {
      forall fd: nat, p, es ensures !ClonesBy(s, setsFresh, chooseNow, fd, p, es) {
        AcceptCloneOutcome(s, fd, true, setsFresh, chooseNow, p);
        AcceptCounted(s, fd, true, setsFresh, chooseNow, p);
        NeverCloned(Accept(s, fd, true, setsFresh, chooseNow, p).s, es);
      }
    }
  }
}
