/** A configuration in which round robin does not go round: two members in use and a single
    clone that is a standby. */
module Witness {
  import opened Relay
  import opened UriHash
  import opened Registry
  import opened Selection
  import opened System
  import opened Arrivals

  predicate Plain(s: Server) {
    s.status == Enabled && !s.standby
  }

  predicate Spare(s: Server) {
    s.c < s.maxc
  }

  /** Two plain members, one standby clone, cloning on, round robin. */
  predicate TwoMembersStandbyClone(b: Balancer) {
    && RegistryOk(b) && b.algorithm == RoundRobin && b.cloneMode == CloneOn && !b.strict && b.nextClone == 0
    && b.members.count == 2 && b.clones.count == 1
    && Plain(b.members.slots[0]) && Plain(b.members.slots[1])
    && b.clones.slots[0].status == Enabled && b.clones.slots[0].standby
  }

  /** All three can take one more connection. */
  predicate AllSpare(b: Balancer)
    requires TwoMembersStandbyClone(b)
  {
    Spare(b.members.slots[0]) && Spare(b.members.slots[1]) && Spare(b.clones.slots[0])
  }

  lemma {:induction false} ScanOfTwo(b: Balancer)
    requires TwoMembersStandbyClone(b) && AllSpare(b)
    ensures Scan(b.members.slots, 2, false, false) == [0, 1]
    ensures Scan(b.clones.slots, 1, false, false) == [] && Scan(b.clones.slots, 1, false, true) == [0]
  {
    assert |b.members.slots| == MAXSERVERS && |b.clones.slots| == MAXSERVERS;
    hide SlotsOk, HashOk;
    assert Scan(b.members.slots, 0, false, false) == [];
    assert Scan(b.members.slots, 1, false, false) == [0];
    assert Scan(b.clones.slots, 0, false, false) == [] && Scan(b.clones.slots, 0, false, true) == [];
  }

  /** A selection picks member 1, and leaves the configuration as it was. */
  lemma {:induction false} RoundRobinSticks(b: Balancer)
    requires TwoMembersStandbyClone(b) && AllSpare(b)
    ensures var r := Choose(b, NotHttp);
      r.Some? && r.value.k.nextMember == 1 && TwoMembersStandbyClone(r.value.b)
  {
    ScanOfTwo(b);
    assert ClobbersCursor(b);
    assert Available(b).Some? && Available(b).value.members == [0, 1] && Available(b).value.nextMember == 0;
    assert Available(b).value.clones == [0] && Available(b).value.nextClone == 0;
    AvailableIsGrounded(b);
    hide Available, Scan, ScanWithFallback, ClobbersCursor;
    assert Position([0, 1], 0) == 0 && Position([0], 0) == 0;
    assert Successor(b.members.slots, [0, 1], 0) == 1;
    assert Successor(b.clones.slots, [0], 0) == 0;
    ChooseKeepsOk(b, NotHttp);
  }

  /** Connections come and go without changing the configuration. */
  lemma {:induction false} SettleKeepsConfiguration(b: Balancer, o: Outcome)
    requires TwoMembersStandbyClone(b) && RegistryOk(Settle(b, o))
    ensures TwoMembersStandbyClone(Settle(b, o))
  {
    assert |b.members.slots| == MAXSERVERS && |b.clones.slots| == MAXSERVERS;
    hide RegistryOk;
    var b' := Settle(b, o);
    assert Plain(b'.members.slots[0]) && Plain(b'.members.slots[1]);
  }

  /** Any run of accepted clients and handled events in which the three servers can take a
      connection whenever a server is selected. */
  ghost predicate BusySteps(w: World, steps: seq<Step>)
    requires Inv(w)
    decreases |steps|
  {
    steps == [] ||
    (&& Possible(w, steps[0]) && !steps[0].Other?
     && (SelectionOf(w, steps[0]).Some? ==> TwoMembersStandbyClone(w.b) && AllSpare(w.b))
     && (StepKeepsInv(w, steps[0]); BusySteps(Next(w, steps[0]), steps[1..])))
  }

  lemma {:induction false} BusyStep(w: World, step: Step)
    requires Inv(w) && Possible(w, step) && !step.Other? && TwoMembersStandbyClone(w.b)
    requires SelectionOf(w, step).Some? ==> AllSpare(w.b)
    ensures TwoMembersStandbyClone(Next(w, step).b)
    ensures SelectionOf(w, step).Some? ==> SelectionOf(w, step).value.k.nextMember == 1
  {
    StepKeepsInv(w, step);
    var sel := SelectionOf(w, step);
    var o := OutcomeOf(w, step);
    if sel.Some? { SelectionIsChoice(w, step); RoundRobinSticks(w.b); }
    hide SelectionOf, OutcomeOf, Choose, RegistryOk, CountsOk, Settle, AllSpare;
    SettleKeepsConfiguration(if sel.Some? then sel.value.b else w.b, o);
  }

  predicate AllOne(picks: seq<int>) {
    forall j :: 0 <= j < |picks| ==> picks[j] == 1
  }

  lemma {:induction false} AllOneBoth(first: seq<int>, rest: seq<int>)
    requires AllOne(first) && AllOne(rest)
    ensures AllOne(first + rest)
  {
  }

  /** In every such run every client is sent to member 1, and member 0 is never chosen. */
  lemma {:induction false} MemberZeroStarves(w: World, steps: seq<Step>)
    requires Inv(w) && TwoMembersStandbyClone(w.b) && BusySteps(w, steps)
    ensures AllOne(PicksOf(w, steps))
    decreases |steps|
  {
    if steps != [] {
      assert RegistryOk(w.b);
      var sel := SelectionOf(w, steps[0]);
      hide Inv, Next, SelectionOf, TwoMembersStandbyClone, AllSpare, Possible, RegistryOk;
      StepKeepsInv(w, steps[0]);
      BusyStep(w, steps[0]);
      var first := if sel.Some? then [sel.value.k.nextMember] else [];
      assert AllOne(first);
      hide AllOne;
      MemberZeroStarves(Next(w, steps[0]), steps[1..]);
      AllOneBoth(first, PicksOf(Next(w, steps[0]), steps[1..]));
    }
  }

  // ----- how it is reached

  /** Five steps, as a configuration file makes them: two members and a standby clone, round
      robin, cloning. */
  const MEMBER := Other(SharedStep.CreateServer(false, Enabled, false, 500, 4.0))
  const CLONE := Other(SharedStep.CreateServer(true, Enabled, true, 500, 4.0))
  const ROUND_ROBIN := Other(Configure(RoundRobin, false, 0.1, 30, 5))
  const CLONING := Other(SetCloning(true))

  /** The configuration is reached from startup by these five steps. */
  lemma {:induction false} ConfigurationReached(sessions: nat, setsFresh: bool) returns (w: World)
    ensures Reachable(sessions, setsFresh, [MEMBER, MEMBER, CLONE, ROUND_ROBIN, CLONING], w)
    ensures TwoMembersStandbyClone(w.b) && AllSpare(w.b)
  {
    StartOk(sessions, setsFresh);
    var w0 := Start(sessions, setsFresh);
    hide Inv, Next, RegistryOk, Runs;
    var w1, w2, w3 := ServersCreated(w0);
    var w4;
    w4, w := RoundRobinConfigured(w3);
    assert Runs(w, [], w) by { NoSteps(w); }
    RunsBefore(w4, CLONING, [], w);
    assert [CLONING] + [] == [CLONING];
    RunsBefore(w3, ROUND_ROBIN, [CLONING], w);
    RunsBefore(w2, CLONE, [ROUND_ROBIN] + [CLONING], w);
    RunsBefore(w1, MEMBER, [CLONE] + ([ROUND_ROBIN] + [CLONING]), w);
    RunsBefore(w0, MEMBER, [MEMBER] + ([CLONE] + ([ROUND_ROBIN] + [CLONING])), w);
    assert [MEMBER] + ([MEMBER] + ([CLONE] + ([ROUND_ROBIN] + [CLONING]))) == [MEMBER, MEMBER, CLONE, ROUND_ROBIN, CLONING];
  }

  lemma {:induction false} NoSteps(w: World)
    requires Inv(w)
    ensures Runs(w, [], w)
  {
  }

  lemma {:induction false} RoundRobinConfigured(w3: World) returns (w4: World, w5: World)
    requires Inv(w3) && w3.b == InitialBalancer().(members := w3.b.members, clones := w3.b.clones)
    requires w3.b.members.count == 2 && w3.b.clones.count == 1
    requires Plain(w3.b.members.slots[0]) && Plain(w3.b.members.slots[1])
    requires w3.b.clones.slots[0].status == Enabled && w3.b.clones.slots[0].standby
    requires Spare(w3.b.members.slots[0]) && Spare(w3.b.members.slots[1]) && Spare(w3.b.clones.slots[0])
    ensures Possible(w3, ROUND_ROBIN) && w4 == Next(w3, ROUND_ROBIN) && Inv(w4)
    ensures Possible(w4, CLONING) && w5 == Next(w4, CLONING) && Inv(w5)
    ensures TwoMembersStandbyClone(w5.b) && AllSpare(w5.b)
  {
    StepKeepsInv(w3, ROUND_ROBIN);
    w4 := Next(w3, ROUND_ROBIN);
    StepKeepsInv(w4, CLONING);
    w5 := Next(w4, CLONING);
    assert RegistryOk(w5.b);
    hide Inv, HashOk;
    assert SomeEnabled(w4.b.clones);
  }

  lemma {:induction false} ServersCreated(w0: World) returns (w1: World, w2: World, w3: World)
    requires Inv(w0) && w0.b == InitialBalancer()
    ensures Possible(w0, MEMBER) && w1 == Next(w0, MEMBER) && Inv(w1)
    ensures Possible(w1, MEMBER) && w2 == Next(w1, MEMBER) && Inv(w2)
    ensures Possible(w2, CLONE) && w3 == Next(w2, CLONE) && Inv(w3)
    ensures w3.b == w0.b.(members := w3.b.members, clones := w3.b.clones)
    ensures w3.b.members.count == 2 && w3.b.clones.count == 1
    ensures w3.b.members.slots[0] == NewServer(Enabled, false, 500, 4.0)
    ensures w3.b.members.slots[1] == NewServer(Enabled, false, 500, 4.0).(id := 1)
    ensures w3.b.clones.slots[0] == NewServer(Enabled, true, 500, 4.0)
  {
    hide Inv, FirstFree, RegistryOk;
    var b0 := w0.b;
    assert RegistryOk(b0) && SettingsOk(b0) by { InitialOk(); }
    assert FirstFree(b0.members.slots, 0) == 0;
    StepKeepsInv(w0, MEMBER);
    w1 := Next(w0, MEMBER);
    assert w1.b.members.count == 1 && w1.b.members.slots[0] == NewServer(Enabled, false, 500, 4.0);
    assert FirstFree(w1.b.members.slots, 0) == 0 && FirstFree(w1.b.members.slots, 1) == 1;
    InvIsOk(w1);
    StepKeepsInv(w1, MEMBER);
    w2 := Next(w1, MEMBER);
    assert w2.b.members.slots[0] == w1.b.members.slots[0];
    assert w2.b.clones == b0.clones && FirstFree(w2.b.clones.slots, 0) == 0;
    InvIsOk(w2);
    StepKeepsInv(w2, CLONE);
    w3 := Next(w2, CLONE);
  }

  lemma {:induction false} InvIsOk(w: World)
    requires Inv(w)
    ensures RegistryOk(w.b) && SettingsOk(w.b)
  {
  }
}
