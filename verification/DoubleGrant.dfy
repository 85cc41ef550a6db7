/** How two clients come to share a session: without the guard, an event that gives a session
    back twice makes the free list hand it out twice. */
module DoubleGrant {
  import opened Relay
  import opened RelayInvariants
  import opened RelayStale
  import opened RelayDrain
  import opened UriHash
  import opened Registry
  import opened Selection
  import opened System
  import opened SessionQueue
  import opened Machine

  /** Connecting succeeds. */
  const REACHED := Reaches(Joined, 0, Joined, 1)

  const CONNECT := Connect(2, true, REACHED)

  /** A client accepted now is kept when connecting succeeds. */
  predicate Admits(b: Balancer)
    requires RegistryOk(b)
  {
    !ChoosesAtAccept(b) || Available(b).Some?
  }

  // ----- the client closes while bytes wait for it

  function Closing(i: nat): Move {
    Serve(i, CLOSES_WHILE_WAITING, REACHED, [])
  }

  /** The session is without a client, queued twice, and everyone else can still be admitted. */
  lemma {:induction false} ClosingReleasesTwice(m: Machine, i: nat)
    requires Good(m, []) && !m.guarded && i < |m.w.sessions| && |m.ring.slots| > 2 && Admits(m.w.b)
    requires m.w.sessions[i].flags.cliConnected && m.w.sessions[i].toClient != []
    requires |m.w.sessions[i].toMember| < MESSAGE_SIZE_LIMIT
    ensures Allowed(m, Closing(i))
    ensures var m' := Advance(m, Closing(i));
      && Inv(m'.w) && SessionsOk(m'.w) && Admits(m'.w.b) && |m'.w.sessions| == |m.w.sessions|
      && !m'.w.sessions[i].flags.cliConnected && Represents(m'.ring, [i, i])
  {
    var s := m.w.sessions[i];
    assert Live(s) by { assert SessionOk(s); }
    ClosingIsAllowed(m, i);
    ServeKeepsWorld(m, Closing(i));
    ClosingStillAdmits(m, i);
    var o, times := ServeOutcome(m, Closing(i));
    ReleasedTwiceGrantedTwice(m.ring, [], i);
    assert [] + [i, i] == [i, i];
    hide Inv, SessionsOk, Advance, Allowed, Live, ReleasesTwice, Admits, Represents, Add, Take, TakeMany, FreeIds;
    GiveBackTimes(m.ring, i);
    hide GiveBack;
  }

  lemma {:induction false} ClosingIsAllowed(m: Machine, i: nat)
    requires Good(m, []) && !m.guarded && i < |m.w.sessions|
    requires m.w.sessions[i].flags.cliConnected
    ensures Allowed(m, Closing(i)) && ReleasesTwice(m, Closing(i))
    ensures SelectionOf(m.w, Handled(Closing(i))) == None
  {
    hide Inv, SessionsOk, FreeIds;
    assert Inv(m.w) && RegistryOk(m.w.b) by { InvRegistry(m.w); }
  }

  lemma {:induction false} InvRegistry(w: World)
    requires Inv(w)
    ensures RegistryOk(w.b) && SettingsOk(w.b)
  {
  }

  lemma {:induction false} ClosingStillAdmits(m: Machine, i: nat)
    requires Good(m, []) && !m.guarded && i < |m.w.sessions| && Admits(m.w.b)
    requires Live(m.w.sessions[i]) && m.w.sessions[i].toClient != []
    requires Allowed(m, Closing(i)) && SelectionOf(m.w, Handled(Closing(i))) == None
    requires Inv(Advance(m, Closing(i)).w)
    ensures Admits(Advance(m, Closing(i)).w.b)
  {
    var step := Handled(Closing(i));
    var o := OutcomeOf(m.w, step);
    DispatchCounted(m.w.sessions[i], EventOf(m.w, step));
    assert o.fx.memberJoins == 0;
    var b' := Advance(m, Closing(i)).w.b;
    assert b' == Settle(m.w.b, o);
    assert RegistryOk(b') by { InvRegistry(Advance(m, Closing(i)).w); }
    hide Inv, Advance, OutcomeOf, Dispatch, Represents, FreeIds, SessionsOk;
    DropsStillAdmit(m.w.b, o);
  }

  lemma {:induction false} DropsStillAdmit(b: Balancer, o: Outcome)
    requires RegistryOk(b) && RegistryOk(Settle(b, o)) && Admits(b) && o.fx.memberJoins == 0
    ensures Admits(Settle(b, o))
  {
    if ChoosesAtAccept(b) {
      AvailableSound(b);
      AvailableSound(Settle(b, o));
      assert |b.members.slots| == MAXSERVERS && b.members.count <= MAXSERVERS;
      hide Available, Offer, RegistryOk, Credit, Eligible;
      var k :| 0 <= k < b.members.count && Eligible(b.strict, b.members.slots[k]);
      DropKeepsEligible(b.members, o.s.member, o.fx.memberDrops, k, b.strict);
    }
  }

  lemma {:induction false} DropKeepsEligible(v: Servers, slot: nat, down: nat, k: nat, strict: bool)
    requires k < |v.slots| && Eligible(strict, v.slots[k])
    ensures |Credit(v, slot, 0, down).slots| == |v.slots| && Credit(v, slot, 0, down).count == v.count
    ensures Eligible(strict, Credit(v, slot, 0, down).slots[k])
  {
  }

  // ----- the next client gets it

  lemma {:induction false} ConnectGetsIt(m: Machine, i: nat, ids: seq<nat>)
    requires Inv(m.w) && SessionsOk(m.w) && Represents(m.ring, [i] + ids) && i < |m.w.sessions|
    requires !m.w.sessions[i].flags.cliConnected && Admits(m.w.b)
    ensures StepOf(m, CONNECT) == Some(Accept(i, 2, true, REACHED)) && Allowed(m, CONNECT)
    ensures var m' := Advance(m, CONNECT);
      && Inv(m'.w) && |m'.w.sessions| == |m.w.sessions|
      && m'.w.sessions[i].flags.cliConnected && Represents(m'.ring, ids)
  {
    EmptyIffHeadIsRear(m.ring, [i] + ids);
    TakeRemovesOldest(m.ring, [i] + ids);
    assert ([i] + ids)[1..] == ids;
    hide Represents, Take;
    var step := Accept(i, 2, true, REACHED);
    assert StepOf(m, CONNECT) == Some(step);
    AdvanceKeepsInv(m, CONNECT);
    KeptWhenAdmitted(m.w, i);
    GiveBackTimes(Take(m.ring).0, i);
    hide Inv, GiveBack, OutcomeOf, SelectionOf, Settle, Admits, SessionsOk;
  }

  lemma {:induction false} KeptWhenAdmitted(w: World, i: nat)
    requires Inv(w) && SessionsOk(w) && i < |w.sessions| && !w.sessions[i].flags.cliConnected && Admits(w.b)
    ensures var o := OutcomeOf(w, Accept(i, 2, true, REACHED));
      && o.s.flags.cliConnected && o.fx.released == 0
      && (ChoosesAtAccept(w.b) && w.sessions[i].memberfd == -1 ==> o.s.flags.memConnected)
  {
    var s := w.sessions[i];
    assert SessionOk(s);
    var step := Accept(i, 2, true, REACHED);
    var p := PickFrom(SelectionOf(w, step), REACHED);
    if ChoosesAtAccept(w.b) { assert SelectionOf(w, step).Some?; }
    AcceptOutcome(s, 2, true, w.setsFresh, ChoosesAtAccept(w.b), p);
    hide SelectionOf, Inv, Relay.Accept, SessionsOk, Admits, Stale;
  }

  /** Two clients, one session: with every session in use, when a client closes while bytes
      wait for it, the next client gets its session, and the one after that gets it too,
      while the other still holds it. */
  lemma {:induction false} TwoClientsShare(m: Machine, i: nat) returns (m': Machine)
    requires Good(m, []) && !m.guarded && i < |m.w.sessions| && |m.ring.slots| > 2 && Admits(m.w.b)
    requires m.w.sessions[i].flags.cliConnected && m.w.sessions[i].toClient != []
    requires |m.w.sessions[i].toMember| < MESSAGE_SIZE_LIMIT
    ensures Leads(m, [Closing(i), CONNECT], m') && WellFormed(m'.ring)
    ensures i < |m'.w.sessions| && m'.w.sessions[i].flags.cliConnected
    ensures StepOf(m', CONNECT) == Some(Accept(i, 2, true, REACHED))
  {
    ClosingReleasesTwice(m, i);
    var m1 := Advance(m, Closing(i));
    assert [i] + [i] == [i, i];
    ConnectGetsIt(m1, i, [i]);
    m' := Advance(m1, CONNECT);
    EmptyIffHeadIsRear(m'.ring, [i]);
    TakeRemovesOldest(m'.ring, [i]);
    assert WellFormed(m1.ring) && WellFormed(m'.ring);
    hide Inv, Advance, Allowed, Represents, FreeIds, SessionsOk, Admits;
    assert Leads(m', [], m');
    LeadsBefore(m1, CONNECT, [], m');
    assert [CONNECT] + [] == [CONNECT] && [Closing(i)] + [CONNECT] == [Closing(i), CONNECT];
    LeadsBefore(m, Closing(i), [CONNECT], m');
  }

  // ----- how it comes about

  /** One session and one member, which has room for more clients than there are sessions. */
  predicate OneMember(w: World) {
    && Inv(w) && SessionsOk(w) && |w.sessions| == 1 && w.b.algorithm == LeastConnections && !w.b.strict
    && w.b.members.count == 1 && w.b.members.slots[0].status == Enabled && w.b.members.slots[0].maxc == 500
  }

  lemma {:induction false} OneMemberAdmits(w: World)
    requires OneMember(w)
    ensures RegistryOk(w.b) && Admits(w.b)
  {
    CountBound(Members(w.sessions), 0);
    assert Eligible(w.b.strict, w.b.members.slots[0]);
    AvailableSound(w.b);
    hide Available, Offer, HashOk;
  }

  lemma {:induction false} MasterKeepsOneMember(w: World, step: Step)
    requires OneMember(w) && Possible(w, step) && !step.Other? && Disciplined(w, step)
    ensures OneMember(Next(w, step))
  {
    StepKeepsInv(w, step);
    StepKeepsSessions(w, step);
    SelectionIsGood(w, step);
    var sel := SelectionOf(w, step);
    var b := if sel.Some? then sel.value.b else w.b;
    if sel.Some? { SelectionKeepsSettings(w, step); }
    assert |w.b.members.slots| == MAXSERVERS;
    hide SelectionOf, OutcomeOf, Inv, SessionsOk, RegistryOk, Sound;
    SettleKeepsFirst(b, OutcomeOf(w, step));
  }

  lemma {:induction false} SelectionKeepsSettings(w: World, step: Step)
    requires RegistryOk(w.b) && Possible(w, step) && SelectionOf(w, step).Some?
    ensures var b := SelectionOf(w, step).value.b; b.algorithm == w.b.algorithm && b.strict == w.b.strict
  {
    var req := if step.Accept? then NotHttp else RequestFor(w.b, w.sessions[step.i], step.e, step.stale);
    ChooseKeepsOk(w.b, req);
    hide Choose, RegistryOk, OnlyUsage;
  }

  lemma {:induction false} SettleKeepsFirst(b: Balancer, o: Outcome)
    requires |b.members.slots| == MAXSERVERS
    ensures var b' := Settle(b, o);
      && b'.algorithm == b.algorithm && b'.strict == b.strict && b'.members.count == b.members.count
      && |b'.members.slots| == MAXSERVERS && b'.members.slots[0] == b.members.slots[0].(c := b'.members.slots[0].c)
  {
  }

  /** A session whose member has answered and whose client has not yet been sent the answer. */
  predicate Answered(s: Session) {
    s.flags.cliConnected && s.toClient != [] && s.toMember == []
  }

  const CREATE := Background(SharedStep.CreateServer(false, Enabled, false, 500, 4.0))
  const ANSWER := Serve(0, MemberReady(Some(ReadSome([1])), None), REACHED, [])

  lemma {:induction false} CreateMakesOneMember(m: Machine)
    requires Inv(m.w) && SessionsOk(m.w) && WellFormed(m.ring) && m.w.b == InitialBalancer() && |m.w.sessions| == 1
    ensures Allowed(m, CREATE) && OneMember(Advance(m, CREATE).w)
    ensures Advance(m, CREATE) == m.(w := m.w.(b := Advance(m, CREATE).w.b))
  {
    var b := m.w.b;
    assert b.members.count == 0 && |b.members.slots| == MAXSERVERS;
    assert FirstFree(b.members.slots, 0) == 0;
    AdvanceKeepsInv(m, CREATE);
    hide Inv, FirstFree, SessionOk;
  }

  lemma {:induction false} ConnectServes(m: Machine)
    requires OneMember(m.w) && Represents(m.ring, [0]) && m.w.sessions == [NEW_SESSION]
    ensures Allowed(m, CONNECT)
    ensures var m' := Advance(m, CONNECT);
      && OneMember(m'.w) && Represents(m'.ring, []) && m'.guarded == m.guarded && |m'.ring.slots| == |m.ring.slots|
      && var s := m'.w.sessions[0];
         s.flags.cliConnected && s.flags.memConnected && s.toClient == [] && s.toMember == []
  {
    OneMemberAdmits(m.w);
    assert [0] == [0] + [];
    ConnectGetsIt(m, 0, []);
    var step := Accept(0, 2, true, REACHED);
    MasterKeepsOneMember(m.w, step);
    KeptWhenAdmitted(m.w, 0);
    AcceptKeepsBuffers(NEW_SESSION, 2, m.w.setsFresh, true, PickFrom(SelectionOf(m.w, step), REACHED));
    SizeKept(m, CONNECT);
    hide Inv, SessionsOk, Represents, SelectionOf, Settle, Relay.Accept, Admits, GiveBack, Take, Releases;
  }

  lemma {:induction false} SizeKept(m: Machine, move: Move)
    requires Inv(m.w) && WellFormed(m.ring) && Allowed(m, move)
    ensures |Advance(m, move).ring.slots| == |m.ring.slots| && Advance(m, move).guarded == m.guarded
  {
    hide Inv, Next, Releases;
  }

  lemma {:induction false} AcceptKeepsBuffers(s: Session, fd: nat, setsFresh: bool, chooseNow: bool, p: Pick)
    requires Dead(s)
    ensures var t := Relay.Accept(s, fd, true, setsFresh, chooseNow, p).s; t.toClient == [] && t.toMember == []
  {
    EstablishKeeps(Greet(s, fd, true, setsFresh), p);
    hide Establish;
  }

  lemma {:induction false} AnswerIsBuffered(m: Machine)
    requires OneMember(m.w) && WellFormed(m.ring) && !m.guarded
    requires var s := m.w.sessions[0]; s.flags.cliConnected && s.flags.memConnected && s.toClient == [] && s.toMember == []
    ensures Allowed(m, ANSWER) && !ReleasesTwice(m, ANSWER)
    ensures OneMember(Advance(m, ANSWER).w) && Answered(Advance(m, ANSWER).w.sessions[0])
  {
    var s := m.w.sessions[0];
    assert Live(s) by { assert SessionOk(s); }
    MasterKeepsOneMember(m.w, Handled(ANSWER));
    OneByteRead(s);
    hide Inv, SessionsOk, MemberRead, Live, SelectionOf, Settle, GiveBack, Releases;
  }

  lemma {:induction false} OneByteRead(s: Session)
    requires Live(s) && s.flags.memConnected && s.toClient == [] && s.toMember == []
    ensures var t := MemberRead(s, ReadSome([1])).s; t.flags.cliConnected && t.toClient == [1] && t.toMember == []
    ensures s.memberInterest.Watch?
  {
    assert Taken(ReadSome([1]), Room(s.toClient)) == [1];
  }

  /** From startup, with one session and one member: a client is served, its member answers,
      it closes while the answer waits, and the next two clients get the same session. */
  lemma {:induction false} SharingReached(memory: seq<nat>, setsFresh: bool) returns (m: Machine)
    requires |memory| > 2
    ensures Good(Booted(1, memory, setsFresh, false), [0])
    ensures Leads(Booted(1, memory, setsFresh, false), [CREATE, CONNECT, ANSWER, Closing(0), CONNECT], m)
    ensures WellFormed(m.ring) && |m.w.sessions| > 0 && m.w.sessions[0].flags.cliConnected
    ensures StepOf(m, CONNECT) == Some(Accept(0, 2, true, REACHED))
  {
    hide Good, Inv, Advance, Allowed, Represents, SessionsOk, Admits, FreeIds, WellFormed, Leads, Booted, Answered;
    var m0, m1, m2, m3 := AnswerReached(memory, setsFresh);
    AnsweredHasRoom(m3.w.sessions[0]);
    m := TwoClientsShare(m3, 0);
    LeadsBefore(m2, ANSWER, [Closing(0), CONNECT], m);
    LeadsBefore(m1, CONNECT, [ANSWER] + [Closing(0), CONNECT], m);
    LeadsBefore(m0, CREATE, [CONNECT] + ([ANSWER] + [Closing(0), CONNECT]), m);
    assert [CREATE] + ([CONNECT] + ([ANSWER] + [Closing(0), CONNECT])) == [CREATE, CONNECT, ANSWER, Closing(0), CONNECT];
  }

  lemma {:induction false} AnsweredHasRoom(s: Session)
    requires Answered(s)
    ensures s.flags.cliConnected && s.toClient != [] && |s.toMember| < MESSAGE_SIZE_LIMIT
  {
  }

  /** The machine may go on: it is as it should be for the next move. */
  predicate Ready(m: Machine) {
    Inv(m.w) && WellFormed(m.ring)
  }

  lemma {:induction false} AnswerReached(memory: seq<nat>, setsFresh: bool)
    returns (m0: Machine, m1: Machine, m2: Machine, m3: Machine)
    requires |memory| > 2
    ensures m0 == Booted(1, memory, setsFresh, false) && Good(m0, [0])
    ensures Ready(m0) && Allowed(m0, CREATE) && m1 == Advance(m0, CREATE)
    ensures Ready(m1) && Allowed(m1, CONNECT) && m2 == Advance(m1, CONNECT)
    ensures Ready(m2) && Allowed(m2, ANSWER) && m3 == Advance(m2, ANSWER)
    ensures Ready(m3) && Good(m3, []) && !m3.guarded && |m3.ring.slots| > 2 && |m3.w.sessions| == 1
    ensures RegistryOk(m3.w.b) && Admits(m3.w.b) && Answered(m3.w.sessions[0])
  {
    BootedIsGood(1, memory, setsFresh, false);
    assert Upto(1) == [0];
    m0 := Booted(1, memory, setsFresh, false);
    hide Upto, Represents, FreeIds, SessionsOk, Inv, Stocked;
    CreateMakesOneMember(m0);
    m1 := Advance(m0, CREATE);
    assert m1.w.sessions == [NEW_SESSION] && m1.ring == m0.ring && !m1.guarded;
    hide Advance, Allowed, Booted;
    ConnectServes(m1);
    m2 := Advance(m1, CONNECT);
    assert WellFormed(m2.ring) by { RepresentsIsWellFormed(m2.ring, []); }
    AnswerIsBuffered(m2);
    SizeKept(m2, ANSWER);
    m3 := Advance(m2, ANSWER);
    AnsweredIsGood(m0, m1, m2, m3);
    OneMemberAdmits(m3.w);
  }

  lemma {:induction false} RepresentsIsWellFormed(q: Ring, ids: seq<nat>)
    requires Represents(q, ids)
    ensures WellFormed(q)
  {
  }

  lemma {:induction false} AnsweredIsGood(m0: Machine, m1: Machine, m2: Machine, m3: Machine)
    requires Good(m0, [0]) && Allowed(m0, CREATE) && m1 == Advance(m0, CREATE)
    requires Inv(m1.w) && WellFormed(m1.ring) && Allowed(m1, CONNECT) && m2 == Advance(m1, CONNECT)
    requires Inv(m2.w) && WellFormed(m2.ring) && Allowed(m2, ANSWER) && !ReleasesTwice(m2, ANSWER) && m3 == Advance(m2, ANSWER)
    requires |m3.w.sessions| == 1 && m3.w.sessions[0].flags.cliConnected
    ensures Good(m3, [])
  {
    hide Advance, Allowed;
    var ids1 := AdvanceKeepsGood(m0, [0], CREATE);
    var ids2 := AdvanceKeepsGood(m1, ids1, CONNECT);
    var ids3 := AdvanceKeepsGood(m2, ids2, ANSWER);
    hide Inv, SessionsOk, Represents;
    FirstIsFree(ids3, m3.w.sessions);
    hide FreeIds;
    assert ids3 == [];
  }

  lemma {:induction false} FirstIsFree(ids: seq<nat>, sessions: seq<Session>)
    requires FreeIds(ids, sessions)
    ensures ids != [] ==> ids[0] < |sessions| && !sessions[ids[0]].flags.cliConnected
  {
    if ids != [] { assert ids[0] in ids; }
  }
}
