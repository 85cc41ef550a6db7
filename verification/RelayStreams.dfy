/** What a session does to the bytes that pass through it, over whole runs: nothing is
    lost, repeated or reordered, and the clone gets its copy. */
module RelayStreams {
  import opened Relay
  import opened RelayInvariants

  // ----- stream fidelity

  /** What was buffered and what was read is, in order, what was sent, what was thrown away
      with a deleted session, and what is still buffered; in both directions. */
  predicate Conserved(s: Session, o: Outcome) {
    && s.toMember + o.fx.fromClient == o.fx.sentMember + o.fx.lostMember + o.s.toMember
    && s.toClient + o.fx.fromMember == o.fx.sentClient + o.fx.lostClient + o.s.toClient
  }

  /** Bytes are thrown away only when the session is released, and then it is dead. */
  predicate LosesOnRelease(o: Outcome) {
    && (o.fx.released == 0 ==> o.fx.lostMember == [] && o.fx.lostClient == [])
    && (o.fx.released > 0 <==> Dead(o.s))
  }

  predicate Faithful(s: Session, o: Outcome) {
    Conserved(s, o) && LosesOnRelease(o) && SessionOk(o.s)
  }

  /** The law for one direction: buffered, read, sent, lost and still buffered bytes. */
  lemma {:induction false} Chain(
    held: seq<Byte>, got: seq<Byte>, sent: seq<Byte>, mid: seq<Byte>,
    got': seq<Byte>, sent': seq<Byte>, lost': seq<Byte>, held': seq<Byte>)
    requires held + got == sent + mid
    requires mid + got' == sent' + lost' + held'
    ensures held + (got + got') == (sent + sent') + lost' + held'
  {
    calc {
      held + (got + got');
      (held + got) + got';
      sent + (mid + got');
      sent + (sent' + lost' + held');
      (sent + sent') + lost' + held';
    }
  }

  lemma {:induction false} BothFaithful(s: Session, a: Outcome, b: Outcome)
    requires Faithful(s, a)
    requires if a.fx.released > 0 then Dead(b.s) && Silent(b.fx) else Faithful(a.s, b)
    ensures Faithful(s, Both(a, b))
  {
    if a.fx.released == 0 {
      hide Dead, SessionOk;
      assert a.fx.sentMember + a.fx.lostMember + a.s.toMember == a.fx.sentMember + a.s.toMember;
      assert a.fx.sentClient + a.fx.lostClient + a.s.toClient == a.fx.sentClient + a.s.toClient;
      Chain(s.toMember, a.fx.fromClient, a.fx.sentMember, a.s.toMember,
            b.fx.fromClient, b.fx.sentMember, b.fx.lostMember, b.s.toMember);
      Chain(s.toClient, a.fx.fromMember, a.fx.sentClient, a.s.toClient,
            b.fx.fromMember, b.fx.sentClient, b.fx.lostClient, b.s.toClient);
      assert a.fx.lostMember + b.fx.lostMember == b.fx.lostMember;
      assert a.fx.lostClient + b.fx.lostClient == b.fx.lostClient;
    } else {
      assert a.s.toMember == [] && a.s.toClient == [];
      assert a.fx.sentMember + a.fx.lostMember + [] == a.fx.sentMember + a.fx.lostMember;
      assert a.fx.sentClient + a.fx.lostClient + [] == a.fx.sentClient + a.fx.lostClient;
      Chain(s.toMember, a.fx.fromClient, a.fx.sentMember, a.fx.lostMember, [], [], a.fx.lostMember, []);
      Chain(s.toClient, a.fx.fromMember, a.fx.sentClient, a.fx.lostClient, [], [], a.fx.lostClient, []);
      assert a.fx.lostMember + [] == a.fx.lostMember && a.fx.lostClient + [] == a.fx.lostClient;
    }
  }

  /** No bytes pass. */
  predicate Silent(fx: Effects) {
    && fx.fromClient == fx.sentMember == fx.lostMember == []
    && fx.fromMember == fx.sentClient == fx.lostClient == []
  }

  lemma {:induction false} DeleteFaithful(s: Session)
    requires Live(s)
    ensures Faithful(s, DeleteSession(s))
  {
    DeleteIsDead(s);
  }

  lemma {:induction false} EstablishFaithful(s: Session, p: Pick)
    requires s.flags.cliConnected && s.clientfd >= 0 && s.clientInterest.Watch?
    requires Anchored(s) && !s.flags.memConnected && !s.flags.cloConnected
    ensures Conserved(s, Establish(s, p)) && LosesOnRelease(Establish(s, p))
    ensures Establish(s, p).fx.fromClient == []
  {
    hide ConnectServer;
    EstablishKeeps(s, p);
    ConnectKeeps(s, p);
  }

  lemma {:induction false} FinishConserves(s: Session, data: seq<Byte>)
    ensures var o := FinishClientRead(s, data);
      o.s.toMember == s.toMember && o.s.toClient == s.toClient && Silent(o.fx) && o.fx.released == 0
  {
  }

  lemma {:induction false} AbsorbFaithful(s: Session, data: seq<Byte>, p: Pick)
    requires Live(s) && 0 < |data| <= Room(s.toMember)
    ensures Faithful(s, Absorb(s, data, p))
  {
    AbsorbKeeps(s, data, p);
    hide Establish, FinishClientRead, Dead;
    var t := s.(toMember := s.toMember + data);
    if s.flags.isFresh { EstablishFaithful(t, p); }
    var e := if s.flags.isFresh then Establish(t, p) else Outcome(t, QUIET);
    FinishConserves(e.s, data);
  }

  lemma {:induction false} ClientReadFaithful(s: Session, r: ReadResult, p: Pick)
    requires Live(s)
    ensures Faithful(s, ClientRead(s, r, p))
  {
    hide Absorb, DeleteSession, Faithful;
    DeleteFaithful(s);
    var data := Taken(r, Room(s.toMember));
    if data != [] { AbsorbFaithful(s, data, p); }
  }

  /** The last bytes for the client leave and the session with them. */
  lemma {:induction false} DrainThenDelete(s: Session, n: nat)
    requires Live(s) && n <= |s.toClient|
    ensures var t := DrainClient(s, n);
      Faithful(s, Both(Outcome(t, QUIET.(sentClient := s.toClient[..n])), DeleteSession(t)))
  {
    var t := DrainClient(s, n);
    var d := DeleteSession(t);
    DeleteIsDead(t);
    DeleteLoses(t);
    DrainBuffers(s, n);
    SentThen(s.toClient[..n], d.fx);
    hide DeleteSession, Live, DrainClient, Effects.Then;
    DrainedIsFaithful(s, n, d);
  }

  lemma {:induction false} DrainedIsFaithful(s: Session, n: nat, d: Outcome)
    requires n <= |s.toClient| && Dead(d.s)
    requires d.fx == QUIET.(memberDrops := d.fx.memberDrops, cloneDrops := d.fx.cloneDrops,
      lostMember := s.toMember, lostClient := s.toClient[n..], released := 1)
    ensures Faithful(s, Outcome(d.s, d.fx.(sentClient := s.toClient[..n])))
  {
    Halves(s.toClient, n);
    Halves(s.toMember, 0);
  }

  lemma {:induction false} Halves(x: seq<Byte>, n: nat)
    requires n <= |x|
    ensures x + [] == x[..n] + x[n..] + [] && x + [] == [] + x + []
  {
  }

  lemma {:induction false} SentThen(sent: seq<Byte>, fx: Effects)
    requires fx.sentClient == []
    ensures QUIET.(sentClient := sent).Then(fx) == fx.(sentClient := sent)
  {
    assert [] + fx.fromClient == fx.fromClient && [] + fx.fromMember == fx.fromMember;
    assert [] + fx.sentMember == fx.sentMember && sent + fx.sentClient == sent && [] + fx.sentClone == fx.sentClone;
    assert [] + fx.copied == fx.copied && [] + fx.lostMember == fx.lostMember && [] + fx.lostClient == fx.lostClient;
  }

  lemma {:induction false} DrainThenStay(s: Session, n: nat)
    requires Live(s) && n <= |s.toClient| && SessionOk(AfterClientWrite(DrainClient(s, n)))
    ensures Faithful(s, Outcome(AfterClientWrite(DrainClient(s, n)), QUIET.(sentClient := s.toClient[..n])))
  {
    var t := DrainClient(s, n);
    assert !Dead(t);
    AfterClientWriteBuffers(t);
    DrainBuffers(s, n);
    hide SessionOk, Dead, Live, DrainClient, AfterClientWrite;
    assert s.toClient + [] == s.toClient[..n] + [] + s.toClient[n..] && s.toMember + [] == [] + [] + s.toMember;
  }

  lemma {:induction false} ClientWriteFaithful(s: Session, w: WriteResult)
    requires Live(s)
    ensures Faithful(s, ClientWrite(s, w))
  {
    ClientWriteKeeps(s, w);
    DeleteFaithful(s);
    hide DeleteSession, Faithful, AfterClientWrite, DrainClient, SessionOk, Live;
    if w.WriteOk? {
      var n := Min(w.capacity, |s.toClient|);
      DrainThenDelete(s, n);
      if !(n == |s.toClient| && !s.flags.memConnected) { DrainThenStay(s, n); }
    }
  }

  lemma {:induction false} DrainBuffers(s: Session, n: nat)
    requires n <= |s.toClient|
    ensures DrainClient(s, n).toMember == s.toMember && DrainClient(s, n).toClient == s.toClient[n..]
  {
  }

  lemma {:induction false} AfterClientWriteBuffers(s: Session)
    ensures AfterClientWrite(s).toMember == s.toMember && AfterClientWrite(s).toClient == s.toClient
    ensures !Dead(s) ==> !Dead(AfterClientWrite(s))
  {
  }

  lemma {:induction false} DeleteLoses(s: Session)
    ensures var d := DeleteSession(s); d.fx == QUIET.(memberDrops := d.fx.memberDrops, cloneDrops := d.fx.cloneDrops,
      lostMember := s.toMember, lostClient := s.toClient, released := 1)
    ensures DeleteSession(s).s.toMember == DeleteSession(s).s.toClient == DeleteSession(s).s.toClone == []
  {
  }

  lemma {:induction false} DeadIsDeaf(s: Session, w: WriteResult)
    requires Dead(s) && w.WriteFailed?
    ensures Dead(ClientWrite(s, w).s) && Silent(ClientWrite(s, w).fx)
  {
  }

  lemma {:induction false} MemberReadFaithful(s: Session, r: ReadResult)
    requires Live(s) && s.flags.memConnected
    ensures Faithful(s, MemberRead(s, r))
  {
    MemberReadKeeps(s, r);
    DeleteFaithful(s);
    hide DeleteSession;
  }

  lemma {:induction false} MemberWriteFaithful(s: Session, w: WriteResult)
    requires Live(s) && (w.WriteOk? ==> s.flags.memConnected)
    ensures Faithful(s, MemberWrite(s, w))
  {
    MemberWriteKeeps(s, w);
    if w.WriteOk? {
      var n := Min(w.capacity, |s.toMember|);
      assert s.toMember == s.toMember[..n] + s.toMember[n..];
    }
  }

  lemma {:induction false} CloneWriteFaithful(s: Session, w: WriteResult)
    requires Live(s) && (w.WriteOk? ==> s.flags.cloConnected)
    ensures Faithful(s, CloneWrite(s, w))
  {
    CloneWriteKeeps(s, w);
  }

  lemma {:induction false} CloneReadFaithful(s: Session, r: ReadResult)
    requires Live(s) && s.flags.cloConnected
    ensures Faithful(s, CloneRead(s, r)) && CloneRead(s, r).fx.released == 0
    ensures CloneRead(s, r).s.clonefd >= 0 ==> CloneRead(s, r).s.flags.cloConnected
  {
  }

  lemma {:induction false} ClientEventFaithful(s: Session, rd: Option<ReadResult>, wr: Option<WriteResult>, p: Pick)
    requires Live(s)
    ensures Faithful(s, ClientEvent(s, rd, wr, p))
  {
    hide ClientRead, ClientWrite;
    if rd.Some? { ClientReadFaithful(s, rd.value, p); }
    var a := if rd.Some? then ClientRead(s, rd.value, p) else Outcome(s, QUIET);
    if wr.Some? {
      var w := OnOpen(a.s.clientfd, wr.value);
      if a.fx.released > 0 { DeadIsDeaf(a.s, w); } else { ClientWriteFaithful(a.s, w); }
      BothFaithful(s, a, ClientWrite(a.s, w));
    }
  }

  lemma {:induction false} MemberEventFaithful(s: Session, rd: Option<ReadResult>, wr: Option<WriteResult>)
    requires Live(s) && s.flags.memConnected
    ensures Faithful(s, MemberEvent(s, rd, wr))
  {
    hide MemberRead, MemberWrite;
    if rd.Some? { MemberReadFaithful(s, rd.value); MemberReadKeeps(s, rd.value); }
    var a := if rd.Some? then MemberRead(s, rd.value) else Outcome(s, QUIET);
    if wr.Some? {
      var w := OnOpen(a.s.memberfd, wr.value);
      if a.fx.released > 0 { DeadMemberIsDeaf(a.s, w); } else { MemberWriteFaithful(a.s, w); }
      BothFaithful(s, a, MemberWrite(a.s, w));
    }
  }

  lemma {:induction false} CloneEventFaithful(s: Session, rd: Option<ReadResult>, wr: Option<WriteResult>)
    requires Live(s) && s.flags.cloConnected
    ensures Faithful(s, CloneEvent(s, rd, wr))
  {
    hide CloneRead, CloneWrite;
    if rd.Some? { CloneReadFaithful(s, rd.value); }
    var a := if rd.Some? then CloneRead(s, rd.value) else Outcome(s, QUIET);
    if wr.Some? {
      var w := OnOpen(a.s.clonefd, wr.value);
      CloneWriteFaithful(a.s, w);
      BothFaithful(s, a, CloneWrite(a.s, w));
    }
  }

  lemma {:induction false} DispatchFaithful(s: Session, e: Event)
    requires Live(s)
    ensures Faithful(s, Dispatch(s, e))
  {
    hide ClientEvent, MemberEvent, CloneEvent, DeleteSession;
    match e
    case ClientHangup => DeleteFaithful(s);
    case ClientReady(rd, wr, p) => ClientEventFaithful(s, rd, wr, p);
    case MemberReady(rd, wr) => if s.flags.memConnected { MemberEventFaithful(s, rd, wr); }
    case CloneReady(rd, wr) => if s.flags.cloConnected { CloneEventFaithful(s, rd, wr); }
    case _ =>
  }

  lemma {:induction false} DeadMemberIsDeaf(s: Session, w: WriteResult)
    requires Dead(s) && w.WriteFailed? && s.memberfd < 0
    ensures Dead(MemberWrite(s, w).s) && Silent(MemberWrite(s, w).fx)
  {
  }

  /** Stream fidelity. In every run of a live session, the bytes sent to the member, the
      bytes thrown away when the session is deleted and the bytes still buffered are exactly
      the bytes read from the client in order, and likewise from the member to the client.
      Nothing is thrown away while the session lives. */
  lemma {:induction false} StreamFidelity(s: Session, es: seq<Event>)
    requires Live(s)
    ensures Faithful(s, Run(s, es))
  {
    if es != [] {
      var before := Run(s, es[..|es| - 1]);
      StreamFidelity(s, es[..|es| - 1]);
      var e := es[|es| - 1];
      if before.fx.released == 0 {
        DispatchFaithful(before.s, e);
      }
      BothFaithful(s, before, Dispatch(before.s, e));
    }
  }

  // ----- the clone's own stream

  /** A chunk that strncpy copies exactly: nothing but NULs after a NUL. */
  predicate NulSafe(chunk: seq<Byte>) {
    forall i, j :: 0 <= i < j < |chunk| && chunk[i] == 0 ==> chunk[j] == 0
  }

  lemma {:induction false} NulSafeTail(chunk: seq<Byte>)
    requires chunk != [] && chunk[0] != 0
    ensures NulSafe(chunk) <==> NulSafe(chunk[1..])
  {
    var tail := chunk[1..];
    if NulSafe(tail) {
      forall i, j | 0 <= i < j < |chunk| && chunk[i] == 0 ensures chunk[j] == 0 {
        assert tail[i - 1] == 0 && tail[j - 1] == chunk[j];
      }
    }
    if NulSafe(chunk) {
      forall i, j | 0 <= i < j < |tail| && tail[i] == 0 ensures tail[j] == 0 {
        assert chunk[i + 1] == 0 && chunk[j + 1] == tail[j];
      }
    }
  }

  lemma {:induction false} StrNCopyExact(chunk: seq<Byte>)
    ensures StrNCopy(chunk) == chunk <==> NulSafe(chunk)
  {
    if chunk != [] && chunk[0] != 0 {
      StrNCopyExact(chunk[1..]);
      NulSafeTail(chunk);
      assert chunk == [chunk[0]] + chunk[1..];
      assert StrNCopy(chunk)[1..] == StrNCopy(chunk[1..]);
    } else if chunk != [] && StrNCopy(chunk) == chunk {
      assert forall j :: 0 <= j < |chunk| ==> chunk[j] == StrNCopy(chunk)[j];
    }
  }

  /** The copy byte by byte: exact up to the first NUL, and NULs from there on. */
  lemma {:induction false} StrNCopyAt(chunk: seq<Byte>, i: nat)
    requires i < |chunk|
    ensures StrNCopy(chunk)[i] == if 0 in chunk[..i] then 0 else chunk[i]
  {
    if chunk[0] == 0 {
      assert i > 0 ==> chunk[..i][0] == 0;
    } else if i > 0 {
      StrNCopyAt(chunk[1..], i - 1);
      assert chunk[..i] == [chunk[0]] + chunk[1..][..i - 1];
    }
  }

  /** The clone of the session gets to hear everything from here on: it is connected, or the
      session still waits for its first request. */
  predicate Heard(s: Session) {
    s.flags.cloConnected || s.flags.isFresh
  }

  /** A session with a connected clone hands it a copy of each chunk, the first one included. */
  predicate Cloned(s: Session, o: Outcome) {
    && !o.s.flags.isFresh
    && (o.s.flags.cloConnected ==> Heard(s) && s.toClone + o.fx.copied == o.fx.sentClone + o.s.toClone)
  }

  /** The same over many events; before the first request nothing happens at all. */
  predicate ClonedThroughout(s: Session, o: Outcome) {
    if o.s.flags.isFresh then s.flags.isFresh && o == Outcome(s, QUIET) else Cloned(s, o)
  }

  lemma {:induction false} QuietThen(fx: Effects)
    ensures QUIET.Then(fx) == fx
  {
    assert [] + fx.fromClient == fx.fromClient && [] + fx.fromMember == fx.fromMember;
    assert [] + fx.sentMember == fx.sentMember && [] + fx.sentClient == fx.sentClient;
    assert [] + fx.sentClone == fx.sentClone && [] + fx.copied == fx.copied;
    assert [] + fx.lostMember == fx.lostMember && [] + fx.lostClient == fx.lostClient;
  }

  lemma {:induction false} BothThroughout(s: Session, a: Outcome, b: Outcome)
    requires ClonedThroughout(s, a) && ClonedThroughout(a.s, b)
    ensures ClonedThroughout(s, Both(a, b))
  {
    if a.s.flags.isFresh {
      QuietThen(b.fx);
      hide Effects.Then;
    } else {
      BothCloned(s, a, b);
      hide Effects.Then, Cloned;
    }
  }

  lemma {:induction false} BothCloned(s: Session, a: Outcome, b: Outcome)
    requires Cloned(s, a) && Cloned(a.s, b)
    ensures Cloned(s, Both(a, b))
  {
    if b.s.flags.cloConnected {
      assert s.toClone + (a.fx.copied + b.fx.copied) == (s.toClone + a.fx.copied) + b.fx.copied;
      assert a.fx.sentClone + (a.s.toClone + b.fx.copied) == (a.fx.sentClone + a.s.toClone) + b.fx.copied;
      assert a.fx.sentClone + (b.fx.sentClone + b.s.toClone) == (a.fx.sentClone + b.fx.sentClone) + b.s.toClone;
    }
  }

  /** The chunk a handler has read, as the clone gets it. */
  predicate CopiesChunk(o: Outcome) {
    Heard(o.s) ==> o.fx.copied == StrNCopy(o.fx.fromClient)
  }

  lemma {:induction false} FinishCloned(s: Session, data: seq<Byte>)
    requires !s.flags.isFresh && (s.flags.cloConnected ==> s.clonefd >= 0)
    ensures Cloned(s, FinishClientRead(s, data)) && FinishClientRead(s, data).fx.fromClient == []
    ensures FinishClientRead(s, data).s.flags.cloConnected ==> FinishClientRead(s, data).fx.copied == StrNCopy(data)
  {
    hide StrNCopy;
    assert [] + (s.toClone + StrNCopy(data)) == s.toClone + StrNCopy(data);
  }

  lemma {:induction false} ClientReadCloned(s: Session, r: ReadResult, p: Pick)
    requires Anchored(s) && FreshIsEmpty(s)
    ensures Cloned(s, ClientRead(s, r, p)) && CopiesChunk(ClientRead(s, r, p))
  {
    hide StrNCopy, FinishClientRead, Establish;
    var data := Taken(r, Room(s.toMember));
    var t := Outcome(s.(toMember := s.toMember + data), QUIET.(fromClient := data));
    var e := if s.flags.isFresh then Both(t, Establish(t.s, p)) else t;
    if s.flags.isFresh { FirstChoice(t.s, p); }
    assert s.toClone + [] == [] + s.toClone && e.fx.fromClient == data;
    assert Cloned(s, e) || e.fx.released > 0;
    FinishCloned(e.s, data);
    BothCloned(s, e, FinishClientRead(e.s, data));
    assert [] + StrNCopy(data) == StrNCopy(data) && data + [] == data;
  }

  /** A session that gets its servers starts with an empty clone buffer. */
  lemma {:induction false} FirstChoice(s: Session, p: Pick)
    requires Anchored(s) && !s.flags.cloConnected && s.toClone == []
    ensures var o := Establish(s, p);
      && Anchored(o.s) && !o.s.flags.isFresh && o.s.toClone == []
      && o.fx.fromClient == o.fx.copied == o.fx.sentClone == []
      && (o.fx.released > 0 ==> !o.s.flags.cloConnected)
  {
    EstablishCounted(s, p);
    assert Anchored(Establish(s, p).s);
    ConnectKeepsClone(s, p);
    var k := ConnectServer(s, p);
    DeleteLoses(s);
    DeleteLoses(k.s);
    DeleteClears(s);
    DeleteClears(k.s);
    hide ConnectServer, DeleteSession, Counted, JoinsPick, Anchored;
  }

  lemma {:induction false} ConnectKeepsClone(s: Session, p: Pick)
    ensures ConnectServer(s, p).s.toClone == s.toClone
  {
  }

  lemma {:induction false} ClientWriteCloned(s: Session, w: WriteResult)
    requires FreshIsEmpty(s)
    ensures var o := ClientWrite(s, w); Cloned(s, o) && o.fx.copied == [] && o.fx.fromClient == []
  {
    assert s.toClone + [] == [] + s.toClone;
    DeleteLoses(s);
    DeleteClears(s);
    if w.WriteOk? {
      var n := Min(w.capacity, |s.toClient|);
      var t := DrainClient(s, n);
      DeleteLoses(t);
      DeleteClears(t);
      AfterClientWriteClone(t);
    }
    hide DeleteSession, AfterClientWrite;
  }

  lemma {:induction false} AfterClientWriteClone(s: Session)
    ensures var t := AfterClientWrite(s);
      t.toClone == s.toClone && t.flags.isFresh == s.flags.isFresh && t.flags.cloConnected == s.flags.cloConnected
  {
  }

  lemma {:induction false} MemberReadCloned(s: Session, r: ReadResult)
    requires !s.flags.isFresh
    ensures var o := MemberRead(s, r); Cloned(s, o) && o.fx.copied == [] && o.fx.fromClient == []
  {
  }

  lemma {:induction false} MemberWriteCloned(s: Session, w: WriteResult)
    requires !s.flags.isFresh
    ensures var o := MemberWrite(s, w); Cloned(s, o) && o.fx.copied == [] && o.fx.fromClient == []
  {
  }

  lemma {:induction false} CloneWriteCloned(s: Session, w: WriteResult)
    requires !s.flags.isFresh
    ensures var o := CloneWrite(s, w); Cloned(s, o) && o.fx.copied == [] && o.fx.fromClient == []
  {
    if w.WriteOk? {
      var n := Min(w.capacity, |s.toClone|);
      assert s.toClone + [] == s.toClone[..n] + s.toClone[n..];
    }
  }

  lemma {:induction false} ClientEventCloned(s: Session, rd: Option<ReadResult>, wr: Option<WriteResult>, p: Pick)
    requires Anchored(s) && FreshIsEmpty(s)
    ensures ClonedThroughout(s, ClientEvent(s, rd, wr, p)) && CopiesChunk(ClientEvent(s, rd, wr, p))
  {
    assert StrNCopy([]) == [];
    hide ClientRead, ClientWrite, StrNCopy;
    if rd.Some? { ClientReadCloned(s, rd.value, p); }
    var a := if rd.Some? then ClientRead(s, rd.value, p) else Outcome(s, QUIET);
    if wr.Some? {
      var w := OnOpen(a.s.clientfd, wr.value);
      ClientWriteCloned(a.s, w);
      BothThroughout(s, a, ClientWrite(a.s, w));
      assert a.fx.copied + [] == a.fx.copied && a.fx.fromClient + [] == a.fx.fromClient;
    }
  }

  lemma {:induction false} MemberEventCloned(s: Session, rd: Option<ReadResult>, wr: Option<WriteResult>)
    requires !s.flags.isFresh
    ensures Cloned(s, MemberEvent(s, rd, wr)) && CopiesChunk(MemberEvent(s, rd, wr))
  {
    assert StrNCopy([]) == [];
    hide MemberRead, MemberWrite, StrNCopy;
    if rd.Some? { MemberReadCloned(s, rd.value); }
    var a := if rd.Some? then MemberRead(s, rd.value) else Outcome(s, QUIET);
    if wr.Some? {
      var w := OnOpen(a.s.memberfd, wr.value);
      MemberWriteCloned(a.s, w);
      BothCloned(s, a, MemberWrite(a.s, w));
    }
  }

  lemma {:induction false} CloneEventCloned(s: Session, rd: Option<ReadResult>, wr: Option<WriteResult>)
    requires !s.flags.isFresh
    ensures Cloned(s, CloneEvent(s, rd, wr)) && CopiesChunk(CloneEvent(s, rd, wr))
  {
    assert StrNCopy([]) == [];
    assert s.toClone + [] == [] + s.toClone;
    hide CloneWrite, StrNCopy;
    var a := if rd.Some? then CloneRead(s, rd.value) else Outcome(s, QUIET);
    assert Cloned(s, a) && a.fx.copied == [] && a.fx.fromClient == [];
    if wr.Some? {
      var w := OnOpen(a.s.clonefd, wr.value);
      CloneWriteCloned(a.s, w);
      BothCloned(s, a, CloneWrite(a.s, w));
    }
  }

  lemma {:induction false} DispatchCloned(s: Session, e: Event)
    requires Anchored(s) && FreshIsEmpty(s)
    ensures ClonedThroughout(s, Dispatch(s, e)) && CopiesChunk(Dispatch(s, e))
  {
    assert StrNCopy([]) == [];
    assert s.toClone + [] == [] + s.toClone;
    hide ClientEvent, MemberEvent, CloneEvent, StrNCopy, DeleteSession;
    match e
    case ClientReady(rd, wr, p) => ClientEventCloned(s, rd, wr, p);
    case MemberReady(rd, wr) => if !s.flags.isFresh { MemberEventCloned(s, rd, wr); }
    case CloneReady(rd, wr) => if !s.flags.isFresh { CloneEventCloned(s, rd, wr); }
    case ClientHangup => DeleteClears(s); DeleteLoses(s);
    case _ =>
  }

  /** Every chunk the run reads from the client survives strncpy. */
  predicate NulSafeRun(s: Session, es: seq<Event>) {
    forall i :: 0 <= i < |es| ==> NulSafe(Dispatch(Run(s, es[..i]).s, es[i]).fx.fromClient)
  }

  /** What the clone was given is as long as what the client sent, and the same when safe. */
  predicate ExactIff(o: Outcome, safe: bool) {
    Heard(o.s) ==>
      |o.fx.copied| == |o.fx.fromClient| && (o.fx.copied == o.fx.fromClient <==> safe)
  }

  lemma {:induction false} BothExact(a: Outcome, b: Outcome, safe: bool)
    requires ExactIff(a, safe) && CopiesChunk(b) && (Heard(b.s) ==> Heard(a.s))
    ensures ExactIff(Both(a, b), safe && NulSafe(b.fx.fromClient))
  {
    hide StrNCopy, NulSafe;
    StrNCopyExact(b.fx.fromClient);
    if Heard(b.s) {
      ConcatEqual(a.fx.copied, b.fx.copied, a.fx.fromClient, b.fx.fromClient);
    }
  }

  /** While the clone stays connected, what it was sent and what waits for it is exactly what
      was copied for it; and that is what the client sent if and only if no chunk has
      anything but NULs after a NUL. A session that gets its clone at its first request
      starts with that request. */
  lemma {:induction false} CloneStreamFidelity(s: Session, es: seq<Event>)
    requires Anchored(s) && FreshIsEmpty(s)
    ensures Anchored(Run(s, es).s) && FreshIsEmpty(Run(s, es).s) && ClonedThroughout(s, Run(s, es))
    ensures ExactIff(Run(s, es), NulSafeRun(s, es))
  {
    if es != [] {
      hide Dispatch, StrNCopy, Anchored, FreshIsEmpty, Heard, ClonedThroughout, CopiesChunk, ExactIff, NulSafe, NulSafeRun;
      var init := es[..|es| - 1];
      var e := es[|es| - 1];
      CloneStreamFidelity(s, init);
      var a := Run(s, init);
      DispatchCloned(a.s, e);
      DispatchAnchored(a.s, e);
      ThroughoutBack(a.s, Dispatch(a.s, e));
      BothThroughout(s, a, Dispatch(a.s, e));
      BothExact(a, Dispatch(a.s, e), NulSafeRun(s, init));
      NulSafeRunSplit(s, init, e);
      assert init + [e] == es;
    } else {
      assert s.toClone + [] == [] + s.toClone;
    }
  }

  lemma {:induction false} ThroughoutBack(s: Session, o: Outcome)
    requires ClonedThroughout(s, o) && FreshIsEmpty(s)
    ensures FreshIsEmpty(o.s) && (Heard(o.s) ==> Heard(s))
  {
  }

  lemma {:induction false} DispatchAnchored(s: Session, e: Event)
    requires Anchored(s)
    ensures Anchored(Dispatch(s, e).s)
  {
    hide Dispatch, Anchored;
    DispatchCounted(s, e);
  }

  lemma {:induction false} NulSafeRunSplit(s: Session, init: seq<Event>, e: Event)
    ensures NulSafeRun(s, init + [e]) <==>
            NulSafeRun(s, init) && NulSafe(Dispatch(Run(s, init).s, e).fx.fromClient)
  {
    hide Dispatch, Run, NulSafe;
    var es := init + [e];
    assert forall i :: 0 <= i < |init| ==> init[..i] == es[..i] && init[i] == es[i];
    assert es[..|init|] == init && es[|init|] == e;
  }

  lemma {:induction false} ConcatEqual(a: seq<Byte>, b: seq<Byte>, c: seq<Byte>, d: seq<Byte>)
    requires |a| == |c|
    ensures a + b == c + d <==> a == c && b == d
  {
    if a + b == c + d {
      assert a == (a + b)[..|a|] && b == (a + b)[|a|..];
    }
  }
}
