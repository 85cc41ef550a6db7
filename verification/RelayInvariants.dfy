/** What every event keeps in a session: how flags, buffers and epoll interests are tied
    together, and that each connection is counted once and given back once. */
module RelayInvariants {
  import opened Relay

  /** The buffers of a live session and the flags that describe them. */
  predicate BuffersAndFlags(s: Session) {
    && |s.toMember| <= MESSAGE_SIZE_LIMIT && |s.toClient| <= MESSAGE_SIZE_LIMIT
    && |s.toClone| <= MESSAGE_SIZE_LIMIT
    && (s.flags.cliBuffFull <==> |s.toMember| == MESSAGE_SIZE_LIMIT)
    && (s.flags.cliReadReady <==> !s.flags.cliBuffFull)
    && (s.flags.memWriteReady <==> s.toMember != [])
    && (s.flags.memBuffFull <==> |s.toClient| == MESSAGE_SIZE_LIMIT)
    && (s.flags.cliWriteReady <==> s.toClient != [])
    && (s.flags.memConnected && !s.flags.memBuffFull ==> s.flags.memReadReady)
    && (s.flags.cloConnected ==> s.flags.cloReadReady && (s.flags.cloWriteReady <==> s.toClone != []))
  }

  /** The mask a pair of ready flags stands for, on a descriptor that is connected. */
  function Implied(connected: bool, read: bool, write: bool): Interest {
    if connected then Watch(read, write) else Closed
  }

  /** Every descriptor is watched for exactly what its ready flags say. */
  predicate InterestsMatchFlags(s: Session) {
    var f := s.flags;
    && s.clientInterest == Implied(f.cliConnected, f.cliReadReady, f.cliWriteReady)
    && s.memberInterest == Implied(f.memConnected, f.memReadReady, f.memWriteReady)
    && s.cloneInterest == Implied(f.cloConnected, f.cloReadReady, f.cloWriteReady)
  }

  /** A connected descriptor is open, and only connected descriptors are watched. */
  predicate Anchored(s: Session) {
    && (s.flags.memConnected <==> s.memberInterest.Watch?)
    && (s.flags.cloConnected <==> s.cloneInterest.Watch?)
    && (s.flags.memConnected ==> s.memberfd >= 0)
    && (s.flags.cloConnected ==> s.clonefd >= 0)
  }

  /** A session that waits for its first request has no server and holds nothing. */
  predicate FreshIsEmpty(s: Session) {
    s.flags.isFresh ==>
      && !s.flags.memConnected && !s.flags.cloConnected && !s.flags.cloWriteReady
      && s.toMember == [] && s.toClient == [] && s.toClone == []
  }

  predicate Live(s: Session) {
    && s.flags.cliConnected && s.clientfd >= 0
    && BuffersAndFlags(s) && InterestsMatchFlags(s) && Anchored(s) && FreshIsEmpty(s)
  }

  /** A session that has been deleted, or never used. */
  predicate Dead(s: Session) {
    && s.flags == STATE_UNUSED && s.clientfd < 0
    && s.toMember == [] && s.toClient == [] && s.toClone == []
    && s.clientInterest.Closed? && s.memberInterest.Closed? && s.cloneInterest.Closed?
  }

  predicate SessionOk(s: Session) {
    Live(s) || Dead(s)
  }

  // ----- one event

  lemma {:induction false} DeleteIsDead(s: Session)
    requires s.clientInterest.Watch? ==> s.flags.cliConnected
    requires s.flags.cliConnected <==> s.clientfd >= 0
    requires Anchored(s)
    ensures Dead(DeleteSession(s).s) && DeleteSession(s).fx.released == 1
  {
  }

  lemma {:induction false} DeleteClears(s: Session)
    ensures DeleteSession(s).s.flags == STATE_UNUSED
  {
  }

  /** The client side of a session is out of reach of connect_server. */
  predicate SameClientSide(s: Session, t: Session) {
    t == s.(member := t.member, clone := t.clone, memberfd := t.memberfd, clonefd := t.clonefd,
            memberInterest := t.memberInterest, cloneInterest := t.cloneInterest,
            flags := s.flags.(memConnected := t.flags.memConnected, cloConnected := t.flags.cloConnected,
                              memReadReady := t.flags.memReadReady, cloReadReady := t.flags.cloReadReady,
                              isFresh := t.flags.isFresh))
  }

  /** Newly connected servers are ready to be read and watched for reading only. */
  predicate NewlyConnected(s: Session) {
    && s.memberInterest == Implied(s.flags.memConnected, true, false)
    && s.cloneInterest == Implied(s.flags.cloConnected, true, false)
    && (s.flags.memConnected ==> s.flags.memReadReady)
    && (s.flags.cloConnected ==> s.flags.cloReadReady)
  }

  predicate Connecting(s: Session, t: Session) {
    Anchored(t) && SameClientSide(s, t) && NewlyConnected(t)
  }

  lemma {:induction false} ConnectMemberKeeps(s: Session, p: Pick)
    requires Anchored(s) && !s.flags.memConnected && !s.flags.cloConnected
    ensures Connecting(s, ConnectMember(s, p).s) && !ConnectMember(s, p).s.flags.cloConnected
  {
    assert s.memberInterest == Closed && s.cloneInterest == Closed;
  }

  lemma {:induction false} ConnectCloneKeeps(s: Session, p: Pick)
    requires Anchored(s) && NewlyConnected(s) && !s.flags.cloConnected
    ensures Connecting(s, ConnectClone(s, p).s)
  {
    assert s.cloneInterest == Closed;
    assert SameClientSide(s, ConnectClone(s, p).s);
  }

  lemma {:induction false} ConnectKeeps(s: Session, p: Pick)
    requires Anchored(s) && !s.flags.memConnected && !s.flags.cloConnected
    ensures Connecting(s, ConnectServer(s, p).s)
  {
    ConnectMemberKeeps(s, p);
    ConnectCloneKeeps(ConnectMember(s, p).s, p);
  }

  lemma {:induction false} EstablishKeeps(s: Session, p: Pick)
    requires s.flags.cliConnected && s.clientfd >= 0 && s.clientInterest.Watch?
    requires Anchored(s) && !s.flags.memConnected && !s.flags.cloConnected
    ensures var o := Establish(s, p);
      if o.fx.released > 0 then Dead(o.s)
      else !o.s.flags.isFresh && Connecting(s, o.s)
  {
    DeleteIsDead(s);
    ConnectKeeps(s, p);
    if ConnectServer(s, p).status == -1 {
      DeleteIsDead(ConnectServer(s, p).s);
    }
  }

  /** A session in the middle of client_read: the bytes are buffered, the flags are not set. */
  predicate Reading(s: Session) {
    && s.flags.cliConnected && s.clientfd >= 0 && s.clientInterest.Watch? && !s.flags.isFresh
    && 0 < |s.toMember| <= MESSAGE_SIZE_LIMIT && |s.toClient| <= MESSAGE_SIZE_LIMIT
    && |s.toClone| <= MESSAGE_SIZE_LIMIT
    && !s.flags.cliBuffFull && s.flags.cliReadReady
    && (s.flags.memBuffFull <==> |s.toClient| == MESSAGE_SIZE_LIMIT)
    && (s.flags.cliWriteReady <==> s.toClient != [])
    && (s.flags.memConnected && !s.flags.memBuffFull ==> s.flags.memReadReady)
    && (s.flags.cloConnected ==> s.flags.cloReadReady)
    && Anchored(s)
  }

  lemma {:induction false} CopyToCloneKeeps(s: Session, data: seq<Byte>)
    requires Reading(s) && data != []
    ensures var t := CopyToClone(s, data).s; Reading(t) && (t.flags.cloConnected ==> t.toClone != [])
    ensures CopyToClone(s, data).fx.released == 0
  {
  }

  lemma {:induction false} AfterClientReadKeeps(s: Session)
    requires Reading(s) && (s.flags.cloConnected ==> s.toClone != [])
    ensures Live(AfterClientRead(s))
  {
  }

  lemma {:induction false} AbsorbKeeps(s: Session, data: seq<Byte>, p: Pick)
    requires Live(s) && 0 < |data| <= Room(s.toMember)
    ensures SessionOk(Absorb(s, data, p).s)
    ensures Dead(Absorb(s, data, p).s) <==> Absorb(s, data, p).fx.released > 0
  {
    hide Establish, CopyToClone, AfterClientRead;
    var t := s.(toMember := s.toMember + data);
    if s.flags.isFresh { EstablishKeeps(t, p); }
    var e := if s.flags.isFresh then Establish(t, p) else Outcome(t, QUIET);
    if e.fx.released == 0 {
      CopyToCloneKeeps(e.s, data);
      AfterClientReadKeeps(CopyToClone(e.s, data).s);
    }
  }

  lemma {:induction false} ClientReadKeeps(s: Session, r: ReadResult, p: Pick)
    requires Live(s)
    ensures SessionOk(ClientRead(s, r, p).s)
    ensures Dead(ClientRead(s, r, p).s) <==> ClientRead(s, r, p).fx.released > 0
  {
    hide Absorb, DeleteSession;
    var data := Taken(r, Room(s.toMember));
    DeleteIsDead(s);
    if data != [] { AbsorbKeeps(s, data, p); }
  }

  lemma {:induction false} ClientWriteKeeps(s: Session, w: WriteResult)
    requires SessionOk(s)
    requires Dead(s) ==> w.WriteFailed?
    ensures SessionOk(ClientWrite(s, w).s)
  {
    if Dead(s) {
      DeleteIsDead(s);
    } else if w.WriteFailed? {
      DeleteIsDead(s);
    } else {
      var n := Min(w.capacity, |s.toClient|);
      var t := DrainClient(s, n);
      DeleteIsDead(t);
      if !(n == |s.toClient| && !s.flags.memConnected) { AfterClientWriteKeeps(s, n); }
    }
    hide DeleteSession, AfterClientWrite, DrainClient, Live, Dead;
  }

  lemma {:induction false} AfterClientWriteKeeps(s: Session, n: nat)
    requires Live(s) && n <= |s.toClient| && (n > 0 || s.toClient == [])
    ensures Live(AfterClientWrite(DrainClient(s, n)))
  {
  }

  lemma {:induction false} MemberReadKeeps(s: Session, r: ReadResult)
    requires Live(s) && s.flags.memConnected
    ensures SessionOk(MemberRead(s, r).s)
    ensures Live(MemberRead(s, r).s) ==>
              MemberRead(s, r).s.flags.memConnected || MemberRead(s, r).s.memberfd < 0
    ensures Dead(MemberRead(s, r).s) ==> MemberRead(s, r).s.memberfd < 0
  {
  }

  lemma {:induction false} MemberWriteKeeps(s: Session, w: WriteResult)
    requires SessionOk(s)
    requires w.WriteOk? ==> Live(s) && s.flags.memConnected
    requires Dead(s) ==> s.memberfd < 0
    ensures SessionOk(MemberWrite(s, w).s)
  {
  }

  lemma {:induction false} CloneWriteKeeps(s: Session, w: WriteResult)
    requires Live(s)
    requires w.WriteOk? ==> s.flags.cloConnected
    ensures Live(CloneWrite(s, w).s)
  {
  }

  /** Whatever the event, a session stays live and coupled or becomes dead. */
  lemma {:induction false} DispatchKeepsOk(s: Session, e: Event)
    requires SessionOk(s)
    ensures SessionOk(Dispatch(s, e).s)
  {
    if Live(s) {
      match e
      case ClientHangup => DeleteIsDead(s); hide DeleteSession, Dead;
      case ClientReady(rd, wr, p) => ClientEventKeepsOk(s, rd, wr, p); hide ClientEvent, Live, Dead;
      case MemberReady(rd, wr) => if s.flags.memConnected { MemberEventKeepsOk(s, rd, wr); } hide MemberEvent, Dead;
      case CloneReady(rd, wr) => if s.flags.cloConnected { CloneEventKeepsOk(s, rd, wr); } hide CloneEvent, Dead;
      case MemberHangup => hide Dead;
      case CloneHangup => hide Dead;
    }
  }

  lemma {:induction false} ClientEventKeepsOk(s: Session, rd: Option<ReadResult>, wr: Option<WriteResult>, p: Pick)
    requires Live(s)
    ensures SessionOk(ClientEvent(s, rd, wr, p).s)
  {
    if rd.Some? { ClientReadKeeps(s, rd.value, p); }
    var a := if rd.Some? then ClientRead(s, rd.value, p) else Outcome(s, QUIET);
    if wr.Some? { ClientWriteKeeps(a.s, OnOpen(a.s.clientfd, wr.value)); }
    hide ClientRead, ClientWrite, Live, Dead;
  }

  lemma {:induction false} MemberEventKeepsOk(s: Session, rd: Option<ReadResult>, wr: Option<WriteResult>)
    requires Live(s) && s.flags.memConnected
    ensures SessionOk(MemberEvent(s, rd, wr).s)
  {
    if rd.Some? { MemberReadKeeps(s, rd.value); }
    var a := if rd.Some? then MemberRead(s, rd.value) else Outcome(s, QUIET);
    hide MemberRead;
    if wr.Some? { MemberWriteKeeps(a.s, OnOpen(a.s.memberfd, wr.value)); }
    hide MemberWrite, Live, Dead;
  }

  lemma {:induction false} CloneEventKeepsOk(s: Session, rd: Option<ReadResult>, wr: Option<WriteResult>)
    requires Live(s) && s.flags.cloConnected
    ensures SessionOk(CloneEvent(s, rd, wr).s)
  {
    var a := if rd.Some? then CloneRead(s, rd.value) else Outcome(s, QUIET);
    assert Live(a.s);
    if wr.Some? { CloneWriteKeeps(a.s, OnOpen(a.s.clonefd, wr.value)); }
    hide CloneWrite, Dead;
  }

  /** Flag and buffer coupling, and mask and flag coupling, in every run. */
  lemma {:induction false} RunKeepsOk(s: Session, es: seq<Event>)
    requires SessionOk(s)
    ensures SessionOk(Run(s, es).s)
  {
    if es != [] {
      RunKeepsOk(s, es[..|es| - 1]);
      DispatchKeepsOk(Run(s, es[..|es| - 1]).s, es[|es| - 1]);
    }
  }

  lemma {:induction false} AcceptKeepsOk(s: Session, fd: nat, watched: bool, setsFresh: bool, chooseNow: bool, p: Pick)
    requires Dead(s)
    ensures SessionOk(Accept(s, fd, watched, setsFresh, chooseNow, p).s)
  {
    var t := Accept(s, fd, true, setsFresh, false, p).s;
    if watched && chooseNow {
      EstablishKeeps(t, p);
    }
  }

  /** No lost wake-up, in every run of a session from its first moment. While its client is
      connected, pending bytes have write interest on their destination, room has read
      interest on its source, and nothing is watched for writing with nothing to write;
      without its client the session is dead and nothing is watched. */
  lemma {:induction false} NoLostWakeup(s: Session, es: seq<Event>)
    requires SessionOk(s)
    ensures var t := Run(s, es).s;
      if !t.flags.cliConnected then Dead(t)
      else
        && t.clientInterest == Watch(|t.toMember| < MESSAGE_SIZE_LIMIT, t.toClient != [])
        && (t.flags.memConnected ==>
              && t.memberInterest.Watch? && (t.memberInterest.write <==> t.toMember != [])
              && (|t.toClient| < MESSAGE_SIZE_LIMIT ==> t.memberInterest.read))
        && (t.flags.cloConnected ==> t.cloneInterest == Watch(true, t.toClone != []))
  {
    RunKeepsOk(s, es);
  }

  /** A client read that epoll was asked for always has room, so an empty read from the
      client is a true end of file. */
  lemma {:induction false} ClientReadHasRoom(s: Session, es: seq<Event>, e: Event)
    requires SessionOk(s)
    requires e.ClientReady? && e.rd.Some? && Solicited(Run(s, es).s, e)
    ensures |Run(s, es).s.toMember| < MESSAGE_SIZE_LIMIT
  {
    RunKeepsOk(s, es);
  }

  // ----- the member side reads past a full buffer

  /** The coupling the member side lacks: no read interest when its buffer is full. */
  predicate Tight(s: Session) {
    s.flags.memConnected ==> (s.flags.memReadReady <==> |s.toClient| < MESSAGE_SIZE_LIMIT)
  }

  /** A successful write to the member breaks that coupling exactly when the buffer of the
      member is full; every other handler keeps it. */
  lemma {:induction false} MemberWriteLoosens(s: Session, w: WriteResult)
    requires Live(s) && s.flags.memConnected && w.WriteOk?
    ensures Tight(MemberWrite(s, w).s) <==> |s.toClient| < MESSAGE_SIZE_LIMIT
  {
    MemberWriteKeeps(s, w);
  }

  /** The consequence: a member that still has data to deliver is read with no room and
      taken for closed. After the write this is certain to happen at its next event, and
      the bytes it offers are not read. */
  lemma {:induction false} FullBufferLosesTheMember(s: Session, w: WriteResult, r: ReadResult)
    requires Live(s) && s.flags.memConnected && w.WriteOk? && r.ReadSome? && r.available != []
    ensures var t := MemberWrite(s, w).s;
      var e := MemberReady(Some(r), None);
      && Solicited(t, e)
      && (Dispatch(t, e).s.flags.memConnected <==> |s.toClient| < MESSAGE_SIZE_LIMIT)
      && (Dispatch(t, e).fx.fromMember == [] <==> |s.toClient| == MESSAGE_SIZE_LIMIT)
  {
    MemberWriteKeeps(s, w);
  }

  /** Such a loss needs nothing unusual: a member whose answer fills its buffer while the
      client's request is still going out loses its connection at the next event, although
      it has more to send and neither side has closed or failed. */
  lemma {:induction false} BusySessionLosesItsMember(s: Session, answer: seq<Byte>, more: seq<Byte>)
    requires Live(s) && s.flags.memConnected && s.toMember != []
    requires |s.toClient| < MESSAGE_SIZE_LIMIT <= |s.toClient| + |answer| && more != []
    ensures var e := MemberReady(Some(ReadSome(answer)), Some(WriteOk(1)));
      var f := MemberReady(Some(ReadSome(more)), None);
      var t := Dispatch(s, e).s;
      Solicited(s, e) && Solicited(t, f) && t.flags.memConnected && !Dispatch(t, f).s.flags.memConnected
  {
    var r := ReadSome(answer);
    var u := MemberRead(s, r).s;
    MemberReadKeeps(s, r);
    assert Taken(r, Room(s.toClient)) == answer[..Room(s.toClient)] != [];
    assert |u.toClient| == MESSAGE_SIZE_LIMIT && u.flags.memConnected && u.memberfd == s.memberfd;
    FullBufferLosesTheMember(u, WriteOk(1), ReadSome(more));
    MemberWriteKeeps(u, WriteOk(1));
    hide MemberRead;
    assert Dispatch(s, MemberReady(Some(r), Some(WriteOk(1)))).s == MemberWrite(u, WriteOk(1)).s;
  }

  /** How full the buffer of the member is when an event comes to its write. */
  function FillAtWrite(s: Session, rd: Option<ReadResult>): nat {
    |s.toClient| + (if rd.Some? then |Taken(rd.value, Room(s.toClient))| else 0)
  }

  /** No write to the member happens while its buffer is full. */
  predicate NeverWritesWhenFull(s: Session, es: seq<Event>) {
    forall i :: 0 <= i < |es| && es[i].MemberReady? && es[i].wr.Some? ==>
      FillAtWrite(Run(s, es[..i]).s, es[i].rd) < MESSAGE_SIZE_LIMIT
  }

  lemma {:induction false} ClientReadKeepsTight(s: Session, r: ReadResult, p: Pick)
    requires Live(s) && Tight(s)
    ensures Tight(ClientRead(s, r, p).s) && SessionOk(ClientRead(s, r, p).s)
  {
    ClientReadKeeps(s, r, p);
    hide Establish;
    var data := Taken(r, Room(s.toMember));
    if data != [] && s.flags.isFresh { EstablishKeeps(s.(toMember := s.toMember + data), p); }
  }

  lemma {:induction false} ClientWriteKeepsTight(s: Session, w: WriteResult)
    requires SessionOk(s) && Tight(s)
    ensures Tight(ClientWrite(s, w).s)
  {
  }

  lemma {:induction false} MemberReadKeepsTight(s: Session, r: ReadResult)
    requires Live(s) && Tight(s) && s.flags.memConnected
    ensures Tight(MemberRead(s, r).s)
    ensures |MemberRead(s, r).s.toClient| <= FillAtWrite(s, Some(r))
  {
  }

  lemma {:induction false} MemberWriteKeepsTight(s: Session, w: WriteResult)
    requires SessionOk(s) && Tight(s)
    requires |s.toClient| < MESSAGE_SIZE_LIMIT
    ensures Tight(MemberWrite(s, w).s)
  {
  }

  lemma {:induction false} ClientEventKeepsTight(s: Session, rd: Option<ReadResult>, wr: Option<WriteResult>, p: Pick)
    requires Live(s) && Tight(s)
    ensures Tight(ClientEvent(s, rd, wr, p).s)
  {
    hide ClientRead, ClientWrite, Tight;
    if rd.Some? { ClientReadKeepsTight(s, rd.value, p); }
    var a := if rd.Some? then ClientRead(s, rd.value, p) else Outcome(s, QUIET);
    if wr.Some? { ClientWriteKeepsTight(a.s, OnOpen(a.s.clientfd, wr.value)); }
  }

  lemma {:induction false} MemberEventKeepsTight(s: Session, rd: Option<ReadResult>, wr: Option<WriteResult>)
    requires Live(s) && Tight(s) && s.flags.memConnected
    requires wr.Some? ==> FillAtWrite(s, rd) < MESSAGE_SIZE_LIMIT
    ensures Tight(MemberEvent(s, rd, wr).s)
  {
    hide MemberRead, MemberWrite, Tight;
    if rd.Some? { MemberReadKeeps(s, rd.value); MemberReadKeepsTight(s, rd.value); }
    var a := if rd.Some? then MemberRead(s, rd.value) else Outcome(s, QUIET);
    if wr.Some? { MemberWriteKeepsTight(a.s, OnOpen(a.s.memberfd, wr.value)); }
  }

  lemma {:induction false} DispatchKeepsTight(s: Session, e: Event)
    requires Live(s) && Tight(s)
    requires e.MemberReady? && e.wr.Some? ==> FillAtWrite(s, e.rd) < MESSAGE_SIZE_LIMIT
    ensures Tight(Dispatch(s, e).s)
  {
    hide ClientEvent, MemberEvent, CloneEvent, DeleteSession;
    match e
    case ClientHangup => DeleteIsDead(s);
    case ClientReady(rd, wr, p) => ClientEventKeepsTight(s, rd, wr, p);
    case MemberReady(rd, wr) => if s.flags.memConnected { MemberEventKeepsTight(s, rd, wr); }
    case CloneReady(rd, wr) => CloneEventKeepsTight(s, rd, wr);
    case _ =>
  }

  lemma {:induction false} CloneWriteKeepsTight(s: Session, w: WriteResult)
    requires Tight(s)
    ensures Tight(CloneWrite(s, w).s)
  {
  }

  lemma {:induction false} CloneEventKeepsTight(s: Session, rd: Option<ReadResult>, wr: Option<WriteResult>)
    requires Tight(s)
    ensures Tight(CloneEvent(s, rd, wr).s)
  {
    var a := if rd.Some? then CloneRead(s, rd.value) else Outcome(s, QUIET);
    assert Tight(a.s);
    hide CloneRead, CloneWrite, Tight;
    if wr.Some? { CloneWriteKeepsTight(a.s, OnOpen(a.s.clonefd, wr.value)); }
  }

  lemma {:induction false} RunKeepsTight(s: Session, es: seq<Event>)
    requires Live(s) && Tight(s) && NeverWritesWhenFull(s, es)
    ensures Tight(Run(s, es).s)
  {
    if es != [] {
      var init := es[..|es| - 1];
      assert forall i :: 0 <= i < |init| ==> init[..i] == es[..i];
      RunKeepsTight(s, init);
      RunKeepsOk(s, init);
      var t := Run(s, init).s;
      if Live(t) {
        DispatchKeepsTight(t, es[|es| - 1]);
      }
    }
  }

  /** In a run that never writes to the member while its buffer is full, every member read
      that epoll was asked for has room, so member end of file is genuine too. */
  lemma {:induction false} MemberReadHasRoom(s: Session, es: seq<Event>, e: Event)
    requires Live(s) && Tight(s) && NeverWritesWhenFull(s, es)
    requires e.MemberReady? && e.rd.Some? && Solicited(Run(s, es).s, e)
    ensures |Run(s, es).s.toClient| < MESSAGE_SIZE_LIMIT
  {
    RunKeepsOk(s, es);
    RunKeepsTight(s, es);
  }

  /** In such a run the member is watched for reading exactly when its buffer has room. */
  lemma {:induction false} MemberWatchIsTight(s: Session, es: seq<Event>)
    requires Live(s) && Tight(s) && NeverWritesWhenFull(s, es)
    ensures var t := Run(s, es).s;
      t.flags.memConnected ==> t.memberInterest == Watch(|t.toClient| < MESSAGE_SIZE_LIMIT, t.toMember != [])
  {
    RunKeepsOk(s, es);
    RunKeepsTight(s, es);
  }

  // ----- connections are counted once

  function Bit(b: bool): nat {
    if b then 1 else 0
  }

  /** The handler's joins and drops account exactly for the change of the session's two
      connections, and a connected session keeps pointing at the same servers. */
  predicate Counted(s: Session, o: Outcome) {
    && Anchored(o.s)
    && o.fx.memberJoins + Bit(s.flags.memConnected) == o.fx.memberDrops + Bit(o.s.flags.memConnected)
    && o.fx.cloneJoins + Bit(s.flags.cloConnected) == o.fx.cloneDrops + Bit(o.s.flags.cloConnected)
    && (s.flags.memConnected ==> o.fx.memberJoins == 0 && o.s.member == s.member)
    && (s.flags.cloConnected ==> o.fx.cloneJoins == 0 && o.s.clone == s.clone)
  }

  lemma {:induction false} BothCounted(s: Session, a: Outcome, b: Outcome)
    requires Counted(s, a) && Counted(a.s, b) && b.fx.memberJoins == b.fx.cloneJoins == 0
    requires b.s.member == a.s.member && b.s.clone == a.s.clone
    ensures Counted(s, Both(a, b))
  {
  }

  lemma {:induction false} ConnectCounted(s: Session, p: Pick)
    requires Anchored(s)
    ensures var k := ConnectServer(s, p);
      && Counted(s, Outcome(k.s, QUIET.(memberJoins := k.memberJoins, cloneJoins := k.cloneJoins)))
      && (k.memberJoins > 0 ==> k.s.member == p.member)
      && (k.cloneJoins > 0 ==> p.useClone && k.s.clone == p.clone)
      && k.memberJoins <= 1 && k.cloneJoins <= 1
  {
  }

  /** What a session joins is what was picked. */
  predicate JoinsPick(o: Outcome, p: Pick) {
    && (o.fx.memberJoins > 0 ==> p.chosen && o.s.member == p.member && o.fx.memberJoins == 1)
    && (o.fx.cloneJoins > 0 ==> p.chosen && p.useClone && o.s.clone == p.clone && o.fx.cloneJoins == 1)
  }

  lemma {:induction false} EstablishCounted(s: Session, p: Pick)
    requires Anchored(s)
    ensures Counted(s, Establish(s, p)) && JoinsPick(Establish(s, p), p)
  {
    ConnectCounted(s, p);
    var k := ConnectServer(s, p);
    var a := Outcome(k.s, QUIET.(memberJoins := k.memberJoins, cloneJoins := k.cloneJoins));
    assert Counted(k.s, DeleteSession(k.s));
    BothCounted(s, a, DeleteSession(k.s));
  }

  lemma {:induction false} AcceptCounted(s: Session, fd: nat, watched: bool, setsFresh: bool, chooseNow: bool, p: Pick)
    requires Anchored(s)
    ensures var o := Accept(s, fd, watched, setsFresh, chooseNow, p); Counted(s, o) && JoinsPick(o, p)
  {
    EstablishCounted(Accept(s, fd, true, setsFresh, false, p).s, p);
  }

  /** A handler that can only drop connections. */
  predicate OnlyDrops(s: Session, o: Outcome) {
    && Counted(s, o) && o.fx.memberJoins == o.fx.cloneJoins == 0
    && o.s.member == s.member && o.s.clone == s.clone
  }

  lemma {:induction false} DeleteOnlyDrops(s: Session)
    requires Anchored(s)
    ensures OnlyDrops(s, DeleteSession(s))
    ensures DeleteSession(s).s.memberfd >= 0 ==> s.memberfd >= 0 && !s.flags.memConnected
  {
  }

  lemma {:induction false} DisconnectCloneOnlyDrops(s: Session)
    requires Anchored(s) && (s.clonefd >= 0 ==> s.flags.cloConnected)
    ensures OnlyDrops(s, DisconnectClone(s)) && DisconnectClone(s).s.clonefd < 0
    ensures DisconnectClone(s).fx.released == 0
  {
  }

  lemma {:induction false} FinishReadCounted(s: Session, data: seq<Byte>)
    requires Anchored(s)
    ensures OnlyDrops(s, FinishClientRead(s, data)) && FinishClientRead(s, data).fx.released == 0
  {
    hide AfterClientRead, DisconnectClone, StrNCopy;
    if s.flags.cloConnected { DisconnectCloneOnlyDrops(s); }
    AfterClientReadDrops(CopyToClone(s, data).s);
  }

  lemma {:induction false} AfterClientReadDrops(s: Session)
    requires Anchored(s)
    ensures OnlyDrops(s, Outcome(AfterClientRead(s), QUIET))
  {
  }

  lemma {:induction false} AbsorbCounted(s: Session, data: seq<Byte>, p: Pick)
    requires Anchored(s)
    ensures Counted(s, Absorb(s, data, p)) && JoinsPick(Absorb(s, data, p), p)
    ensures !s.flags.isFresh ==> Absorb(s, data, p).fx.memberJoins == Absorb(s, data, p).fx.cloneJoins == 0
  {
    hide Establish, FinishClientRead;
    var t := Outcome(s.(toMember := s.toMember + data), QUIET.(fromClient := data));
    EstablishCounted(t.s, p);
    var e := if s.flags.isFresh then Both(t, Establish(t.s, p)) else t;
    FinishReadCounted(e.s, data);
    BothCounted(s, e, FinishClientRead(e.s, data));
  }

  lemma {:induction false} ClientReadCounted(s: Session, r: ReadResult, p: Pick)
    requires Anchored(s)
    ensures Counted(s, ClientRead(s, r, p)) && JoinsPick(ClientRead(s, r, p), p)
    ensures !s.flags.isFresh ==> ClientRead(s, r, p).fx.memberJoins == ClientRead(s, r, p).fx.cloneJoins == 0
  {
    hide Absorb, DeleteSession;
    DeleteOnlyDrops(s);
    AbsorbCounted(s, Taken(r, Room(s.toMember)), p);
  }

  lemma {:induction false} ClientWriteOnlyDrops(s: Session, w: WriteResult)
    requires Anchored(s)
    ensures OnlyDrops(s, ClientWrite(s, w))
  {
  }

  lemma {:induction false} ClientEventCounted(s: Session, rd: Option<ReadResult>, wr: Option<WriteResult>, p: Pick)
    requires Anchored(s)
    ensures Counted(s, ClientEvent(s, rd, wr, p)) && JoinsPick(ClientEvent(s, rd, wr, p), p)
    ensures !s.flags.isFresh ==> ClientEvent(s, rd, wr, p).fx.memberJoins == ClientEvent(s, rd, wr, p).fx.cloneJoins == 0
  {
    hide ClientRead, ClientWrite;
    if rd.Some? { ClientReadCounted(s, rd.value, p); }
    var a := if rd.Some? then ClientRead(s, rd.value, p) else Outcome(s, QUIET);
    if wr.Some? {
      var w := OnOpen(a.s.clientfd, wr.value);
      ClientWriteOnlyDrops(a.s, w);
      BothCounted(s, a, ClientWrite(a.s, w));
    }
  }

  lemma {:induction false} MemberReadCounted(s: Session, r: ReadResult)
    requires Anchored(s) && s.flags.memConnected
    ensures var o := MemberRead(s, r); OnlyDrops(s, o) && (o.s.memberfd >= 0 ==> o.s.flags.memConnected)
  {
    hide DeleteSession, DisconnectMember, AfterMemberRead;
    DeleteOnlyDrops(s);
    DisconnectMemberOnlyDrops(s);
    AfterMemberReadDrops(s.(toClient := s.toClient + Taken(r, Room(s.toClient))));
  }

  lemma {:induction false} DisconnectMemberOnlyDrops(s: Session)
    requires Anchored(s) && s.flags.memConnected
    ensures OnlyDrops(s, DisconnectMember(s)) && DisconnectMember(s).s.memberfd < 0
  {
  }

  lemma {:induction false} AfterMemberReadDrops(s: Session)
    requires Anchored(s)
    ensures OnlyDrops(s, Outcome(AfterMemberRead(s), QUIET))
    ensures AfterMemberRead(s).flags.memConnected == s.flags.memConnected
  {
  }

  lemma {:induction false} MemberWriteCounted(s: Session, w: WriteResult)
    requires Anchored(s) && (s.memberfd >= 0 ==> s.flags.memConnected)
    ensures OnlyDrops(s, MemberWrite(s, w))
  {
  }

  lemma {:induction false} MemberEventCounted(s: Session, rd: Option<ReadResult>, wr: Option<WriteResult>)
    requires Anchored(s) && s.flags.memConnected
    ensures OnlyDrops(s, MemberEvent(s, rd, wr))
  {
    hide MemberRead, MemberWrite;
    if rd.Some? { MemberReadCounted(s, rd.value); }
    var a := if rd.Some? then MemberRead(s, rd.value) else Outcome(s, QUIET);
    if wr.Some? {
      var w := OnOpen(a.s.memberfd, wr.value);
      MemberWriteCounted(a.s, w);
      BothCounted(s, a, MemberWrite(a.s, w));
    }
  }

  lemma {:induction false} CloneWriteOnlyDrops(s: Session, w: WriteResult)
    requires Anchored(s) && (s.clonefd >= 0 ==> s.flags.cloConnected)
    ensures OnlyDrops(s, CloneWrite(s, w))
  {
  }

  lemma {:induction false} CloneEventCounted(s: Session, rd: Option<ReadResult>, wr: Option<WriteResult>)
    requires Anchored(s) && s.flags.cloConnected
    ensures OnlyDrops(s, CloneEvent(s, rd, wr))
  {
    hide CloneWrite, DisconnectClone;
    DisconnectCloneOnlyDrops(s);
    var a := if rd.Some? then CloneRead(s, rd.value) else Outcome(s, QUIET);
    assert OnlyDrops(s, a);
    if wr.Some? {
      var w := OnOpen(a.s.clonefd, wr.value);
      CloneWriteOnlyDrops(a.s, w);
      BothCounted(s, a, CloneWrite(a.s, w));
    }
  }

  /** The pick an event carries; only client events can lead to a selection. */
  function PickOf(e: Event): Pick {
    match e
    case ClientReady(_, _, p) => p
    case _ => Pick(false, 0, Unreachable, 0, false, 0, Unreachable, 0)
  }

  lemma {:induction false} DispatchCounted(s: Session, e: Event)
    requires Anchored(s)
    ensures Counted(s, Dispatch(s, e)) && JoinsPick(Dispatch(s, e), PickOf(e))
    ensures !s.flags.isFresh ==> Dispatch(s, e).fx.memberJoins == Dispatch(s, e).fx.cloneJoins == 0
  {
    match e
    case ClientReady(rd, wr, p) =>
      ClientEventCounted(s, rd, wr, p);
    case MemberReady(rd, wr) =>
      if s.flags.memConnected { MemberEventCounted(s, rd, wr); }
    case CloneReady(rd, wr) =>
      if s.flags.cloConnected { CloneEventCounted(s, rd, wr); }
    case _ =>
  }
}
