/** One session of the balancer as a value: its flag word, its three buffers, its three
    descriptors and the epoll interest of each, and what every event handler does to it.
    The functions follow the handlers branch by branch; the theorems about them are in
    RelayInvariants and RelayStreams, the buffers updated in place are in SessionObject. */
module Relay {

  /** MESSAGE_SIZE_LIMIT: the size of each of the three buffers of a session. */
  const MESSAGE_SIZE_LIMIT: nat := 4096

  type Byte = b: int | 0 <= b < 256

  type Positive = n: nat | 0 < n witness 1

  datatype Option<+T> = None | Some(value: T)

  /** The session's flag word, one field per bit. */
  datatype Flags = Flags(
    memConnected: bool, cliConnected: bool, cloConnected: bool, isFresh: bool,
    memReadReady: bool, cliReadReady: bool, cloReadReady: bool,
    memWriteReady: bool, cliWriteReady: bool, cloWriteReady: bool,
    memBuffFull: bool, cliBuffFull: bool)

  const STATE_UNUSED := Flags(false, false, false, false, false, false, false, false, false, false, false, false)

  /** What epoll watches on a descriptor; Closed when it is not registered. */
  datatype Interest = Closed | Watch(read: bool, write: bool)

  /** A session. A buffer is represented by its used part: toMember is the client read
      buffer, toClient the member read buffer, toClone the clone write buffer. */
  datatype Session = Session(
    flags: Flags,
    clientfd: int, memberfd: int, clonefd: int,
    toMember: seq<Byte>, toClient: seq<Byte>, toClone: seq<Byte>,
    member: nat, clone: nat,
    clientInterest: Interest, memberInterest: Interest, cloneInterest: Interest)

  /** What the kernel has to offer to a read: an error, end of file, or some bytes. */
  datatype ReadResult = ReadFailed | ReadEof | ReadSome(available: seq<Byte>)

  /** What the kernel makes of a write: an error, or room for some bytes. */
  datatype WriteResult = WriteFailed | WriteOk(capacity: Positive)

  /** Everything a handler does outside the session: bytes read and written, bytes thrown
      away, connections added to and taken from the servers, releases to the free list. */
  datatype Effects = Effects(
    fromClient: seq<Byte>, fromMember: seq<Byte>,
    sentMember: seq<Byte>, sentClient: seq<Byte>, sentClone: seq<Byte>,
    copied: seq<Byte>, lostMember: seq<Byte>, lostClient: seq<Byte>,
    memberJoins: nat, memberDrops: nat, cloneJoins: nat, cloneDrops: nat, released: nat)
  {
    function Then(next: Effects): Effects {
      Effects(fromClient + next.fromClient, fromMember + next.fromMember,
              sentMember + next.sentMember, sentClient + next.sentClient, sentClone + next.sentClone,
              copied + next.copied, lostMember + next.lostMember, lostClient + next.lostClient,
              memberJoins + next.memberJoins, memberDrops + next.memberDrops,
              cloneJoins + next.cloneJoins, cloneDrops + next.cloneDrops, released + next.released)
    }
  }

  const QUIET := Effects([], [], [], [], [], [], [], [], 0, 0, 0, 0, 0)

  datatype Outcome = Outcome(s: Session, fx: Effects)

  /** One handler after the other. */
  function Both(first: Outcome, second: Outcome): Outcome {
    Outcome(second.s, first.fx.Then(second.fx))
  }

  function Min(a: nat, b: nat): nat {
    if a <= b then a else b
  }

  /** The bytes a read with the given room delivers; none at end of file, and none when
      there is no room, which the handlers cannot tell from end of file. */
  function Taken(r: ReadResult, room: nat): (data: seq<Byte>)
    ensures |data| <= room
  {
    match r
    case ReadSome(available) => available[..Min(|available|, room)]
    case _ => []
  }

  /** An epoll_ctl MOD: it fails on a descriptor that is not registered. */
  function Mod(i: Interest, read: bool, write: bool): Interest {
    if i.Closed? then Closed else Watch(read, write)
  }

  /** strncpy of a chunk: what follows the first NUL arrives as NULs. */
  function StrNCopy(chunk: seq<Byte>): (copy: seq<Byte>)
    ensures |copy| == |chunk|
  {
    if chunk == [] then []
    else if chunk[0] == 0 then seq(|chunk|, _ => 0)
    else [chunk[0]] + StrNCopy(chunk[1..])
  }

  // ----- disconnecting and deleting

  function DisconnectClient(s: Session): Outcome {
    if s.clientfd >= 0 then
      Outcome(s.(flags := s.flags.(cliConnected := false), clientfd := -1, clientInterest := Closed), QUIET)
    else
      Outcome(s, QUIET)
  }

  function DisconnectMember(s: Session): Outcome {
    if s.memberfd >= 0 then
      Outcome(s.(flags := s.flags.(memConnected := false), memberfd := -1, memberInterest := Closed),
              QUIET.(memberDrops := 1))
    else
      Outcome(s, QUIET)
  }

  function DisconnectClone(s: Session): Outcome {
    if s.clonefd >= 0 then
      Outcome(s.(flags := s.flags.(cloConnected := false), clonefd := -1, cloneInterest := Closed),
              QUIET.(cloneDrops := 1))
    else
      Outcome(s, QUIET)
  }

  /** Closes what is still connected, clears the session and gives it back. */
  function DeleteSession(s: Session): Outcome {
    var cli := s.flags.cliConnected && s.clientfd >= 0;
    var mem := s.flags.memConnected && s.memberfd >= 0;
    var clo := s.flags.cloConnected && s.clonefd >= 0;
    Outcome(
      Session(STATE_UNUSED,
              if cli then -1 else s.clientfd, if mem then -1 else s.memberfd, if clo then -1 else s.clonefd,
              [], [], [], s.member, s.clone,
              if cli then Closed else s.clientInterest,
              if mem then Closed else s.memberInterest,
              if clo then Closed else s.cloneInterest),
      QUIET.(memberDrops := if mem then 1 else 0, cloneDrops := if clo then 1 else 0,
             lostMember := s.toMember, lostClient := s.toClient, released := 1))
  }

  // ----- connecting to servers

  /** How far the connection to a server gets: no connection at all, a socket that cannot
      be bound, a connection that cannot be added to epoll, or an established one. */
  datatype Reach = Unreachable | Unbound | Unwatched | Joined

  /** The outcome of a server selection: whether there is a member, which servers were
      chosen, how connecting to them turns out and on which descriptors. */
  datatype Pick = Pick(chosen: bool, member: nat, memberReach: Reach, newMemberfd: nat,
                       useClone: bool, clone: nat, cloneReach: Reach, newClonefd: nat)

  datatype Connection = Connection(s: Session, status: int, memberJoins: nat, cloneJoins: nat)

  /** A bind failure is reported like any other failure to reach the member. */
  function ConnectMember(s: Session, p: Pick): Connection {
    var tried := s.memberfd == -1 && (p.memberReach.Unwatched? || p.memberReach.Joined?);
    var joined := s.memberfd == -1 && p.memberReach.Joined?;
    Connection(
      s.(member := if tried then p.member else s.member,
         memberfd := if tried then p.newMemberfd else s.memberfd,
         memberInterest := if joined then Watch(true, false) else s.memberInterest,
         flags := s.flags.(memConnected := s.flags.memConnected || joined,
                           memReadReady := s.flags.memReadReady || joined)),
      if s.memberfd == -1 && !joined then -1 else 0, if joined then 1 else 0, 0)
  }

  /** A clone that cannot be reached is only missed, one that cannot be bound is fatal. */
  function ConnectClone(s: Session, p: Pick): Connection {
    var wanted := p.useClone && s.clonefd == -1;
    var tried := wanted && (p.cloneReach.Unwatched? || p.cloneReach.Joined?);
    var joined := wanted && p.cloneReach.Joined?;
    Connection(
      s.(clone := if tried then p.clone else s.clone,
         clonefd := if tried then p.newClonefd else s.clonefd,
         cloneInterest := if joined then Watch(true, false) else s.cloneInterest,
         flags := s.flags.(cloConnected := s.flags.cloConnected || joined,
                           cloReadReady := s.flags.cloReadReady || joined)),
      if !wanted || joined then 0 else if p.cloneReach.Unbound? then -1 else 1, 0, if joined then 1 else 0)
  }

  /** connect_server: status -1 when there is no member connection (or the clone socket
      cannot be bound), 1 when a requested clone is missing, 0 otherwise. */
  function ConnectServer(s: Session, p: Pick): Connection {
    var m := ConnectMember(s, p);
    if m.status == -1 then m
    else
      var c := ConnectClone(m.s, p);
      Connection(c.s, c.status, m.memberJoins, c.cloneJoins)
  }

  /** choose_server as the session sees it: a rejected session is deleted, a served one is
      no longer fresh. */
  function Establish(s: Session, p: Pick): Outcome {
    if !p.chosen then DeleteSession(s)
    else
      var k := ConnectServer(s, p);
      var joined := QUIET.(memberJoins := k.memberJoins, cloneJoins := k.cloneJoins);
      if k.status == -1 then Both(Outcome(k.s, joined), DeleteSession(k.s))
      else Outcome(k.s.(flags := k.s.flags.(isFresh := false)), joined)
  }

  /** The session with a new client. */
  function Greet(s: Session, fd: nat, watched: bool, setsFresh: bool): Session {
    s.(flags := s.flags.(cliConnected := true, cliReadReady := true, isFresh := s.flags.isFresh || setsFresh),
       clientfd := fd,
       clientInterest := if watched then Watch(true, false) else Closed)
  }

  /** What main does with an accepted descriptor once get_new_session has handed out s:
      chooseNow is false for the HASH and STATIC algorithms. setsFresh says whether the
      allocation marks the session fresh; in the source it never does. */
  function Accept(s: Session, fd: nat, watched: bool, setsFresh: bool, chooseNow: bool, p: Pick): Outcome {
    var t := Greet(s, fd, watched, setsFresh);
    if !watched then DeleteSession(t)
    else if chooseNow then Establish(t, p)
    else Outcome(t, QUIET)
  }

  // ----- the six handlers

  /** The clone gets its own copy of what the client sent, or is cut loose. */
  function CopyToClone(s: Session, data: seq<Byte>): Outcome {
    if !s.flags.cloConnected then Outcome(s, QUIET)
    else if |data| > MESSAGE_SIZE_LIMIT - |s.toClone| then DisconnectClone(s)
    else Outcome(s.(toClone := s.toClone + StrNCopy(data)), QUIET.(copied := StrNCopy(data)))
  }

  /** The flags and interests client_read leaves behind. */
  function AfterClientRead(s: Session): Session {
    var full := |s.toMember| == MESSAGE_SIZE_LIMIT;
    var f := s.flags.(memWriteReady := true, cloWriteReady := true,
                      cliBuffFull := s.flags.cliBuffFull || full,
                      cliReadReady := s.flags.cliReadReady && !full);
    s.(flags := f,
       clientInterest := Mod(s.clientInterest, f.cliReadReady, f.cliWriteReady),
       memberInterest := Mod(s.memberInterest, f.memReadReady, true),
       cloneInterest := if f.cloConnected then Mod(s.cloneInterest, true, true) else s.cloneInterest)
  }

  function FinishClientRead(s: Session, data: seq<Byte>): Outcome {
    var c := CopyToClone(s, data);
    Outcome(AfterClientRead(c.s), c.fx)
  }

  /** client_read once some data has arrived: a fresh session first gets its servers. */
  function Absorb(s: Session, data: seq<Byte>, p: Pick): Outcome {
    var t := Outcome(s.(toMember := s.toMember + data), QUIET.(fromClient := data));
    var e := if s.flags.isFresh then Both(t, Establish(t.s, p)) else t;
    if e.fx.released > 0 then e else Both(e, FinishClientRead(e.s, data))
  }

  /** The room left in a buffer. */
  function Room(buffer: seq<Byte>): nat {
    if |buffer| <= MESSAGE_SIZE_LIMIT then MESSAGE_SIZE_LIMIT - |buffer| else 0
  }

  function ClientRead(s: Session, r: ReadResult, p: Pick): Outcome {
    var data := Taken(r, Room(s.toMember));
    if data == [] then DeleteSession(s) else Absorb(s, data, p)
  }

  function AfterClientWrite(s: Session): Session {
    var f := s.flags.(memBuffFull := false, memReadReady := s.flags.memReadReady || s.flags.memBuffFull);
    s.(flags := f,
       clientInterest := Mod(s.clientInterest, f.cliReadReady, f.cliWriteReady),
       memberInterest := Mod(s.memberInterest, f.memReadReady, f.memWriteReady))
  }

  /** The session with the first n bytes for the client gone. */
  function DrainClient(s: Session, n: nat): Session
    requires n <= |s.toClient|
  {
    s.(toClient := s.toClient[n..],
       flags := s.flags.(cliWriteReady := s.flags.cliWriteReady && n < |s.toClient|))
  }

  function ClientWrite(s: Session, w: WriteResult): Outcome {
    match w
    case WriteFailed => DeleteSession(s)
    case WriteOk(capacity) =>
      var n := Min(capacity, |s.toClient|);
      var t := Outcome(DrainClient(s, n), QUIET.(sentClient := s.toClient[..n]));
      if n == |s.toClient| && !s.flags.memConnected then Both(t, DeleteSession(t.s))
      else Outcome(AfterClientWrite(t.s), t.fx)
  }

  function AfterMemberRead(s: Session): Session {
    var full := |s.toClient| == MESSAGE_SIZE_LIMIT;
    var f := s.flags.(cliWriteReady := true,
                      memBuffFull := s.flags.memBuffFull || full,
                      memReadReady := s.flags.memReadReady && !full);
    s.(flags := f,
       clientInterest := Mod(s.clientInterest, f.cliReadReady, true),
       memberInterest := Mod(s.memberInterest, f.memReadReady, f.memWriteReady))
  }

  function MemberRead(s: Session, r: ReadResult): Outcome {
    var data := Taken(r, Room(s.toClient));
    if data == [] then
      if !s.flags.cliWriteReady then DeleteSession(s) else DisconnectMember(s)
    else
      Outcome(AfterMemberRead(s.(toClient := s.toClient + data)), QUIET.(fromMember := data))
  }

  /** The read flag of the member is raised whatever room the member buffer has. */
  function AfterMemberWrite(s: Session): Session {
    var f := s.flags.(memReadReady := true, memWriteReady := s.flags.memWriteReady && s.toMember != [],
                      cliBuffFull := false, cliReadReady := s.flags.cliReadReady || s.flags.cliBuffFull);
    s.(flags := f,
       clientInterest := Mod(s.clientInterest, true, f.cliWriteReady),
       memberInterest := Mod(s.memberInterest, f.memReadReady, f.memWriteReady))
  }

  function MemberWrite(s: Session, w: WriteResult): Outcome {
    match w
    case WriteFailed => DisconnectMember(s)
    case WriteOk(capacity) =>
      var n := Min(capacity, |s.toMember|);
      Outcome(AfterMemberWrite(s.(toMember := s.toMember[n..])), QUIET.(sentMember := s.toMember[..n]))
  }

  /** What the clone answers is thrown away. */
  function CloneRead(s: Session, r: ReadResult): Outcome {
    if Taken(r, MESSAGE_SIZE_LIMIT) == [] then DisconnectClone(s) else Outcome(s, QUIET)
  }

  function AfterCloneWrite(s: Session): Session {
    var f := s.flags.(cloReadReady := true, cloWriteReady := s.flags.cloWriteReady && s.toClone != []);
    s.(flags := f, cloneInterest := Mod(s.cloneInterest, true, f.cloWriteReady))
  }

  function CloneWrite(s: Session, w: WriteResult): Outcome {
    match w
    case WriteFailed => DisconnectClone(s)
    case WriteOk(capacity) =>
      var n := Min(capacity, |s.toClone|);
      Outcome(AfterCloneWrite(s.(toClone := s.toClone[n..])), QUIET.(sentClone := s.toClone[..n]))
  }

  // ----- dispatch

  /** One epoll event on one descriptor of the session: an error or hang-up, or readiness
      to read, to write, or both. */
  datatype Event =
    | ClientHangup
    | ClientReady(rd: Option<ReadResult>, wr: Option<WriteResult>, pick: Pick)
    | MemberHangup
    | MemberReady(rd: Option<ReadResult>, wr: Option<WriteResult>)
    | CloneHangup
    | CloneReady(rd: Option<ReadResult>, wr: Option<WriteResult>)

  /** A write to a descriptor that has just been closed fails. */
  function OnOpen(fd: int, w: WriteResult): WriteResult {
    if fd < 0 then WriteFailed else w
  }

  function ClientEvent(s: Session, rd: Option<ReadResult>, wr: Option<WriteResult>, p: Pick): Outcome {
    var a := if rd.Some? then ClientRead(s, rd.value, p) else Outcome(s, QUIET);
    if wr.Some? then Both(a, ClientWrite(a.s, OnOpen(a.s.clientfd, wr.value))) else a
  }

  function MemberEvent(s: Session, rd: Option<ReadResult>, wr: Option<WriteResult>): Outcome {
    var a := if rd.Some? then MemberRead(s, rd.value) else Outcome(s, QUIET);
    if wr.Some? then Both(a, MemberWrite(a.s, OnOpen(a.s.memberfd, wr.value))) else a
  }

  function CloneEvent(s: Session, rd: Option<ReadResult>, wr: Option<WriteResult>): Outcome {
    var a := if rd.Some? then CloneRead(s, rd.value) else Outcome(s, QUIET);
    if wr.Some? then Both(a, CloneWrite(a.s, OnOpen(a.s.clonefd, wr.value))) else a
  }

  /** The dispatch of main: an event on a descriptor that is no longer watched finds no
      session. A second handler runs even when the first one has deleted the session. */
  function Dispatch(s: Session, e: Event): Outcome {
    match e
    case ClientHangup => if s.clientInterest.Watch? then DeleteSession(s) else Outcome(s, QUIET)
    case ClientReady(rd, wr, p) =>
      if s.clientInterest.Watch? then ClientEvent(s, rd, wr, p) else Outcome(s, QUIET)
    case MemberHangup => if s.memberInterest.Watch? then DisconnectMember(s) else Outcome(s, QUIET)
    case MemberReady(rd, wr) =>
      if s.memberInterest.Watch? then MemberEvent(s, rd, wr) else Outcome(s, QUIET)
    case CloneHangup => if s.cloneInterest.Watch? then DisconnectClone(s) else Outcome(s, QUIET)
    case CloneReady(rd, wr) =>
      if s.cloneInterest.Watch? then CloneEvent(s, rd, wr) else Outcome(s, QUIET)
  }

  /** A run of the session: any sequence of events, whatever epoll was asked for. */
  function Run(s: Session, es: seq<Event>): Outcome {
    if es == [] then Outcome(s, QUIET)
    else
      var before := Run(s, es[..|es| - 1]);
      Both(before, Dispatch(before.s, es[|es| - 1]))
  }

  /** The event asks for no more than epoll was told to watch. */
  predicate Solicited(s: Session, e: Event) {
    match e
    case ClientReady(rd, wr, _) => Asked(s.clientInterest, rd, wr)
    case MemberReady(rd, wr) => Asked(s.memberInterest, rd, wr)
    case CloneReady(rd, wr) => Asked(s.cloneInterest, rd, wr)
    case _ => true
  }

  predicate Asked(i: Interest, rd: Option<ReadResult>, wr: Option<WriteResult>) {
    i.Watch? && (rd.Some? ==> i.read) && (wr.Some? ==> i.write)
  }
}
