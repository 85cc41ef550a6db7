/** A session as the program holds it: three fixed buffers updated in place, their used
    counts, the flag word, the descriptors and their epoll interests. Every method is
    proved to do what the Relay function of the same name says. */
module SessionObject {
  import opened Relay
  import RelayStreams

  /** Copies data behind the used part of a buffer, as read(2) does. */
  method Append(buffer: array<Byte>, used: nat, data: seq<Byte>)
    requires used + |data| <= buffer.Length
    modifies buffer
    ensures buffer[..used + |data|] == old(buffer[..used]) + data
  {
    for i := 0 to |data|
      invariant buffer[..used] == old(buffer[..used])
      invariant buffer[used..used + i] == data[..i]
    {
      buffer[used + i] := data[i];
    }
    assert buffer[..used + |data|] == buffer[..used] + buffer[used..used + |data|];
  }

  /** strncpy behind the used part of a buffer: after a NUL only NULs are written. */
  method AppendString(buffer: array<Byte>, used: nat, data: seq<Byte>)
    requires used + |data| <= buffer.Length
    modifies buffer
    ensures buffer[..used + |data|] == old(buffer[..used]) + StrNCopy(data)
  {
    var ended := false;
    for i := 0 to |data|
      invariant buffer[..used] == old(buffer[..used])
      invariant ended <==> 0 in data[..i]
      invariant buffer[used..used + i] == StrNCopy(data)[..i]
    {
      RelayStreams.StrNCopyAt(data, i);
      buffer[used + i] := if ended then 0 else data[i];
      ended := ended || data[i] == 0;
      assert data[..i + 1] == data[..i] + [data[i]];
    }
    assert buffer[..used + |data|] == buffer[..used] + buffer[used..used + |data|];
  }

  /** Moves what a write has left over to the front of the buffer. */
  method Shift(buffer: array<Byte>, n: nat, left: nat)
    requires n + left <= buffer.Length
    modifies buffer
    ensures buffer[..left] == old(buffer[n..n + left])
  {
    for i := 0 to left
      invariant buffer[..i] == old(buffer[n..n + i])
      invariant forall k :: n + i <= k < n + left ==> buffer[k] == old(buffer[k])
    {
      buffer[i] := buffer[n + i];
    }
  }

  class SessionRecord {
    var flags: Flags
    var clientfd: int
    var memberfd: int
    var clonefd: int
    const clientBuffer: array<Byte>
    const memberBuffer: array<Byte>
    const cloneBuffer: array<Byte>
    var clientUsed: nat
    var memberUsed: nat
    var cloneUsed: nat
    var member: nat
    var clone: nat
    var clientInterest: Interest
    var memberInterest: Interest
    var cloneInterest: Interest

    ghost predicate Valid()
      reads this
    {
      && clientBuffer.Length == memberBuffer.Length == cloneBuffer.Length == MESSAGE_SIZE_LIMIT
      && clientBuffer != memberBuffer && memberBuffer != cloneBuffer && clientBuffer != cloneBuffer
      && clientUsed <= MESSAGE_SIZE_LIMIT && memberUsed <= MESSAGE_SIZE_LIMIT && cloneUsed <= MESSAGE_SIZE_LIMIT
    }

    /** The session as a value. */
    ghost function View(): Session
      requires Valid()
      reads this, clientBuffer, memberBuffer, cloneBuffer
    {
      Session(flags, clientfd, memberfd, clonefd,
              clientBuffer[..clientUsed], memberBuffer[..memberUsed], cloneBuffer[..cloneUsed],
              member, clone, clientInterest, memberInterest, cloneInterest)
    }

    /** A session as initialize_sessions leaves it. */
    constructor ()
      ensures Valid() && fresh(clientBuffer) && fresh(memberBuffer) && fresh(cloneBuffer)
      ensures View() == Session(STATE_UNUSED, -1, -1, -1, [], [], [], 0, 0, Closed, Closed, Closed)
    {
      flags := STATE_UNUSED;
      clientfd, memberfd, clonefd := -1, -1, -1;
      clientBuffer := new Byte[MESSAGE_SIZE_LIMIT](_ => 0);
      memberBuffer := new Byte[MESSAGE_SIZE_LIMIT](_ => 0);
      cloneBuffer := new Byte[MESSAGE_SIZE_LIMIT](_ => 0);
      clientUsed, memberUsed, cloneUsed := 0, 0, 0;
      member, clone := 0, 0;
      clientInterest, memberInterest, cloneInterest := Closed, Closed, Closed;
    }

    method DisconnectClient()
      requires Valid()
      modifies this
      ensures Valid() && View() == Relay.DisconnectClient(old(View())).s
    {
      if clientfd >= 0 {
        flags := flags.(cliConnected := false);
        clientfd := -1;
        clientInterest := Closed;
      }
    }

    method DisconnectMember() returns (fx: Effects)
      requires Valid()
      modifies this
      ensures Valid() && Outcome(View(), fx) == Relay.DisconnectMember(old(View()))
    {
      fx := QUIET;
      if memberfd >= 0 {
        flags := flags.(memConnected := false);
        fx := fx.(memberDrops := 1);
        memberfd := -1;
        memberInterest := Closed;
      }
    }

    method DisconnectClone() returns (fx: Effects)
      requires Valid()
      modifies this
      ensures Valid() && Outcome(View(), fx) == Relay.DisconnectClone(old(View()))
    {
      fx := QUIET;
      if clonefd >= 0 {
        flags := flags.(cloConnected := false);
        fx := fx.(cloneDrops := 1);
        clonefd := -1;
        cloneInterest := Closed;
      }
    }

    /** Closes what is still connected. */
    method CloseAll() returns (memberDrops: nat, cloneDrops: nat)
      requires Valid()
      modifies this
      ensures Valid()
      ensures var s := old(View());
        var cli := s.flags.cliConnected && s.clientfd >= 0;
        var mem := s.flags.memConnected && s.memberfd >= 0;
        var clo := s.flags.cloConnected && s.clonefd >= 0;
        && View() == s.(flags := View().flags,
                        clientfd := if cli then -1 else s.clientfd, clientInterest := if cli then Closed else s.clientInterest,
                        memberfd := if mem then -1 else s.memberfd, memberInterest := if mem then Closed else s.memberInterest,
                        clonefd := if clo then -1 else s.clonefd, cloneInterest := if clo then Closed else s.cloneInterest)
        && memberDrops == (if mem then 1 else 0) && cloneDrops == (if clo then 1 else 0)
    {
      memberDrops, cloneDrops := 0, 0;
      if flags.cliConnected {
        DisconnectClient();
      }
      if flags.memConnected {
        var m := DisconnectMember();
        memberDrops := m.memberDrops;
      }
      if flags.cloConnected {
        var c := DisconnectClone();
        cloneDrops := c.cloneDrops;
      }
    }

    method DeleteSession() returns (fx: Effects)
      requires Valid()
      modifies this
      ensures Valid() && Outcome(View(), fx) == Relay.DeleteSession(old(View()))
    {
      fx := QUIET.(lostMember := clientBuffer[..clientUsed], lostClient := memberBuffer[..memberUsed], released := 1);
      var m, c := CloseAll();
      fx := fx.(memberDrops := m, cloneDrops := c);
      flags := STATE_UNUSED;
      clientUsed, memberUsed, cloneUsed := 0, 0, 0;
    }

    /** The first half of connect_server. */
    method ConnectMember(p: Pick) returns (status: int, joins: nat)
      requires Valid()
      modifies this
      ensures Valid() && Connection(View(), status, joins, 0) == Relay.ConnectMember(old(View()), p)
    {
      if memberfd != -1 {
        return 0, 0;
      }
      if p.memberReach == Unreachable || p.memberReach == Unbound {
        return -1, 0;
      }
      member := p.member;
      memberfd := p.newMemberfd;
      if p.memberReach == Unwatched {
        return -1, 0;
      }
      memberInterest := Watch(true, false);
      flags := flags.(memConnected := true, memReadReady := true);
      return 0, 1;
    }

    /** The second half of connect_server. */
    method ConnectClone(p: Pick) returns (status: int, joins: nat)
      requires Valid()
      modifies this
      ensures Valid() && Connection(View(), status, 0, joins) == Relay.ConnectClone(old(View()), p)
    {
      if !p.useClone || clonefd != -1 {
        return 0, 0;
      }
      if p.cloneReach == Unreachable {
        return 1, 0;
      }
      if p.cloneReach == Unbound {
        return -1, 0;
      }
      clone := p.clone;
      clonefd := p.newClonefd;
      if p.cloneReach == Unwatched {
        return 1, 0;
      }
      cloneInterest := Watch(true, false);
      flags := flags.(cloConnected := true, cloReadReady := true);
      return 0, 1;
    }

    /** connect_server: associates the session with the chosen member, then the clone. */
    method ConnectServer(p: Pick) returns (status: int, fx: Effects)
      requires Valid()
      modifies this
      ensures Valid()
      ensures var k := Relay.ConnectServer(old(View()), p);
        View() == k.s && status == k.status &&
        fx == QUIET.(memberJoins := k.memberJoins, cloneJoins := k.cloneJoins)
    {
      hide Relay.ConnectMember, Relay.ConnectClone;
      fx := QUIET;
      var joins;
      status, joins := ConnectMember(p);
      fx := fx.(memberJoins := joins);
      if status != -1 {
        status, joins := ConnectClone(p);
        fx := fx.(cloneJoins := joins);
      }
    }

    method Establish(p: Pick) returns (fx: Effects)
      requires Valid()
      modifies this
      ensures Valid() && Outcome(View(), fx) == Relay.Establish(old(View()), p)
    {
      hide Relay.ConnectServer, Relay.DeleteSession;
      if !p.chosen {
        fx := DeleteSession();
        return;
      }
      var status;
      status, fx := ConnectServer(p);
      if status == -1 {
        var d := DeleteSession();
        fx := fx.Then(d);
      } else {
        flags := flags.(isFresh := false);
      }
    }

    method Greet(fd: nat, watched: bool, setsFresh: bool)
      requires Valid()
      modifies this
      ensures Valid() && View() == Relay.Greet(old(View()), fd, watched, setsFresh)
    {
      flags := flags.(cliConnected := true, cliReadReady := true, isFresh := flags.isFresh || setsFresh);
      clientfd := fd;
      if watched {
        clientInterest := Watch(true, false);
      } else {
        clientInterest := Closed;
      }
    }

    /** What main does with a client accepted into this session. */
    method Accept(fd: nat, watched: bool, setsFresh: bool, chooseNow: bool, p: Pick) returns (fx: Effects)
      requires Valid()
      modifies this
      ensures Valid() && Outcome(View(), fx) == Relay.Accept(old(View()), fd, watched, setsFresh, chooseNow, p)
    {
      hide Relay.Greet, Relay.Establish, Relay.DeleteSession;
      fx := QUIET;
      Greet(fd, watched, setsFresh);
      if !watched {
        fx := DeleteSession();
      } else if chooseNow {
        fx := Establish(p);
      }
    }

    /** The clone part of client_read. */
    method CopyToClone(data: seq<Byte>) returns (fx: Effects)
      requires Valid()
      modifies this, cloneBuffer
      ensures Valid() && Outcome(View(), fx) == Relay.CopyToClone(old(View()), data)
    {
      hide StrNCopy, Relay.DisconnectClone;
      fx := QUIET;
      if flags.cloConnected {
        if |data| > MESSAGE_SIZE_LIMIT - cloneUsed {
          fx := DisconnectClone();
        } else {
          AppendString(cloneBuffer, cloneUsed, data);
          cloneUsed := cloneUsed + |data|;
          fx := fx.(copied := StrNCopy(data));
        }
      }
    }

    /** The flags client_read leaves behind. */
    method MarkClientRead()
      requires Valid()
      modifies this`flags
      ensures Valid() && View() == old(View()).(flags := Relay.AfterClientRead(old(View())).flags)
    {
      var f := flags.(memWriteReady := true, cloWriteReady := true);
      if clientUsed == MESSAGE_SIZE_LIMIT {
        f := f.(cliBuffFull := true, cliReadReady := false);
      }
      flags := f;
    }

    /** The shortened re-arming of client_read. */
    method RearmAfterClientRead()
      requires Valid()
      modifies this`clientInterest, this`memberInterest, this`cloneInterest
      ensures Valid()
      ensures var s := old(View());
        View() == s.(clientInterest := Mod(s.clientInterest, s.flags.cliReadReady, s.flags.cliWriteReady),
                     memberInterest := Mod(s.memberInterest, s.flags.memReadReady, true),
                     cloneInterest := if s.flags.cloConnected then Mod(s.cloneInterest, true, true) else s.cloneInterest)
    {
      clientInterest := Mod(clientInterest, flags.cliReadReady, flags.cliWriteReady);
      if flags.memReadReady {
        memberInterest := Mod(memberInterest, true, true);
      } else {
        memberInterest := Mod(memberInterest, false, true);
      }
      if flags.cloConnected {
        cloneInterest := Mod(cloneInterest, true, true);
      }
    }

    method AfterClientRead()
      requires Valid()
      modifies this
      ensures Valid() && View() == Relay.AfterClientRead(old(View()))
    {
      MarkClientRead();
      RearmAfterClientRead();
    }

    method ClientRead(r: ReadResult, p: Pick) returns (fx: Effects)
      requires Valid()
      modifies this, clientBuffer, cloneBuffer
      ensures Valid() && Outcome(View(), fx) == Relay.ClientRead(old(View()), r, p)
    {
      hide Relay.DeleteSession, Relay.Establish, Relay.CopyToClone, Relay.AfterClientRead;
      var data := Taken(r, MESSAGE_SIZE_LIMIT - clientUsed);
      if data == [] {
        fx := DeleteSession();
        return;
      }
      ghost var s := View();
      Append(clientBuffer, clientUsed, data);
      clientUsed := clientUsed + |data|;
      fx := QUIET.(fromClient := data);
      assert View() == s.(toMember := s.toMember + data);
      if flags.isFresh {
        var e := Establish(p);
        fx := fx.Then(e);
        if e.released > 0 {
          return;
        }
      }
      var c := CopyToClone(data);
      AfterClientRead();
      fx := fx.Then(c);
    }

    method AfterClientWrite()
      requires Valid()
      modifies this
      ensures Valid() && View() == Relay.AfterClientWrite(old(View()))
    {
      var f := flags;
      if f.memBuffFull {
        f := f.(memBuffFull := false, memReadReady := true);
      }
      flags := f;
      clientInterest := Mod(clientInterest, f.cliReadReady, f.cliWriteReady);
      memberInterest := Mod(memberInterest, f.memReadReady, f.memWriteReady);
    }

    method ClientWrite(w: WriteResult) returns (fx: Effects)
      requires Valid()
      modifies this, memberBuffer
      ensures Valid() && Outcome(View(), fx) == Relay.ClientWrite(old(View()), w)
    {
      hide Relay.DeleteSession, Relay.AfterClientWrite;
      if w.WriteFailed? {
        fx := DeleteSession();
        return;
      }
      ghost var s := View();
      var n := Min(w.capacity, memberUsed);
      fx := QUIET.(sentClient := memberBuffer[..n]);
      memberUsed := memberUsed - n;
      if memberUsed == 0 {
        flags := flags.(cliWriteReady := false);
        assert View() == DrainClient(s, n);
        if !flags.memConnected {
          var d := DeleteSession();
          fx := fx.Then(d);
          return;
        }
      } else {
        Shift(memberBuffer, n, memberUsed);
        assert View() == DrainClient(s, n);
      }
      AfterClientWrite();
    }

    method AfterMemberRead()
      requires Valid()
      modifies this
      ensures Valid() && View() == Relay.AfterMemberRead(old(View()))
    {
      var f := flags.(cliWriteReady := true);
      if memberUsed == MESSAGE_SIZE_LIMIT {
        f := f.(memBuffFull := true, memReadReady := false);
      }
      flags := f;
      if f.cliReadReady {
        clientInterest := Mod(clientInterest, true, true);
      } else {
        clientInterest := Mod(clientInterest, false, true);
      }
      memberInterest := Mod(memberInterest, f.memReadReady, f.memWriteReady);
    }

    method MemberRead(r: ReadResult) returns (fx: Effects)
      requires Valid()
      modifies this, memberBuffer
      ensures Valid() && Outcome(View(), fx) == Relay.MemberRead(old(View()), r)
    {
      hide Relay.DeleteSession, Relay.DisconnectMember, Relay.AfterMemberRead;
      var data := Taken(r, MESSAGE_SIZE_LIMIT - memberUsed);
      if data == [] {
        if !flags.cliWriteReady {
          fx := DeleteSession();
        } else {
          fx := DisconnectMember();
        }
        return;
      }
      ghost var s := View();
      Append(memberBuffer, memberUsed, data);
      memberUsed := memberUsed + |data|;
      fx := QUIET.(fromMember := data);
      assert View() == s.(toClient := s.toClient + data);
      AfterMemberRead();
    }

    method AfterMemberWrite()
      requires Valid()
      modifies this
      ensures Valid() && View() == Relay.AfterMemberWrite(old(View()))
    {
      var f := flags.(memReadReady := true);
      if clientUsed == 0 {
        f := f.(memWriteReady := false);
      }
      if f.cliBuffFull {
        f := f.(cliBuffFull := false, cliReadReady := true);
      }
      flags := f;
      if f.cliWriteReady {
        clientInterest := Mod(clientInterest, true, true);
      } else {
        clientInterest := Mod(clientInterest, true, false);
      }
      memberInterest := Mod(memberInterest, f.memReadReady, f.memWriteReady);
    }

    method MemberWrite(w: WriteResult) returns (fx: Effects)
      requires Valid()
      modifies this, clientBuffer
      ensures Valid() && Outcome(View(), fx) == Relay.MemberWrite(old(View()), w)
    {
      hide Relay.DisconnectMember, Relay.AfterMemberWrite;
      if w.WriteFailed? {
        fx := DisconnectMember();
        return;
      }
      ghost var s := View();
      var n := Min(w.capacity, clientUsed);
      fx := QUIET.(sentMember := clientBuffer[..n]);
      clientUsed := clientUsed - n;
      if clientUsed != 0 {
        Shift(clientBuffer, n, clientUsed);
      }
      assert View() == s.(toMember := s.toMember[n..]);
      AfterMemberWrite();
    }

    method CloneRead(r: ReadResult) returns (fx: Effects)
      requires Valid()
      modifies this
      ensures Valid() && Outcome(View(), fx) == Relay.CloneRead(old(View()), r)
    {
      fx := QUIET;
      if Taken(r, MESSAGE_SIZE_LIMIT) == [] {
        fx := DisconnectClone();
      }
    }

    method AfterCloneWrite()
      requires Valid()
      modifies this
      ensures Valid() && View() == Relay.AfterCloneWrite(old(View()))
    {
      var f := flags.(cloReadReady := true);
      if cloneUsed == 0 {
        f := f.(cloWriteReady := false);
      }
      flags := f;
      if f.cloWriteReady {
        cloneInterest := Mod(cloneInterest, true, true);
      } else {
        cloneInterest := Mod(cloneInterest, true, false);
      }
    }

    method CloneWrite(w: WriteResult) returns (fx: Effects)
      requires Valid()
      modifies this, cloneBuffer
      ensures Valid() && Outcome(View(), fx) == Relay.CloneWrite(old(View()), w)
    {
      hide Relay.DisconnectClone, Relay.AfterCloneWrite;
      if w.WriteFailed? {
        fx := DisconnectClone();
        return;
      }
      ghost var s := View();
      var n := Min(w.capacity, cloneUsed);
      fx := QUIET.(sentClone := cloneBuffer[..n]);
      cloneUsed := cloneUsed - n;
      if cloneUsed != 0 {
        Shift(cloneBuffer, n, cloneUsed);
      }
      assert View() == s.(toClone := s.toClone[n..]);
      AfterCloneWrite();
    }

    /** One pass of the dispatch of main over one event of this session. */
    method Dispatch(e: Event) returns (fx: Effects)
      requires Valid()
      modifies this, clientBuffer, memberBuffer, cloneBuffer
      ensures Valid() && Outcome(View(), fx) == Relay.Dispatch(old(View()), e)
    {
      hide Relay.DeleteSession, Relay.DisconnectMember, Relay.DisconnectClone, Relay.ClientRead, Relay.ClientWrite;
      hide Relay.MemberRead, Relay.MemberWrite, Relay.CloneRead, Relay.CloneWrite;
      fx := QUIET;
      var more := QUIET;
      match e {
        case ClientHangup =>
          if clientInterest != Closed { fx := DeleteSession(); }
        case ClientReady(rd, wr, p) =>
          if clientInterest != Closed {
            if rd.Some? { fx := ClientRead(rd.value, p); }
            if wr.Some? { more := ClientWrite(OnOpen(clientfd, wr.value)); fx := fx.Then(more); }
          }
        case MemberHangup =>
          if memberInterest != Closed { fx := DisconnectMember(); }
        case MemberReady(rd, wr) =>
          if memberInterest != Closed {
            if rd.Some? { fx := MemberRead(rd.value); }
            if wr.Some? { more := MemberWrite(OnOpen(memberfd, wr.value)); fx := fx.Then(more); }
          }
        case CloneHangup =>
          if cloneInterest != Closed { fx := DisconnectClone(); }
        case CloneReady(rd, wr) =>
          if cloneInterest != Closed {
            if rd.Some? { fx := CloneRead(rd.value); }
            if wr.Some? { more := CloneWrite(OnOpen(clonefd, wr.value)); fx := fx.Then(more); }
          }
      }
    }
  }
}
