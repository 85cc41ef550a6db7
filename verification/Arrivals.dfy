/** What the algorithms promise over runs of the whole system: selections happen among any
    other steps of master, admin and monitor, and connections are counted as they are made. */
module Arrivals {
  import opened RelayInvariants
  import opened UriHash
  import opened Registry
  import opened Selection
  import opened Monitor
  import opened Fairness
  import opened System

  /** The members picked by the selections of a run, oldest first. */
  ghost function PicksOf(w: World, steps: seq<Step>): seq<int>
    requires Inv(w)
    decreases |steps|
  {
    if steps == [] || !Possible(w, steps[0]) then []
    else
      var sel := SelectionOf(w, steps[0]);
      StepKeepsInv(w, steps[0]);
      (if sel.Some? then [sel.value.k.nextMember] else []) + PicksOf(Next(w, steps[0]), steps[1..])
  }

  // ----- the cursor

  lemma {:induction false} SharedKeepsCursor(b: Balancer, step: SharedStep)
    requires RegistryOk(b) && SettingsOk(b) && SharedPossible(b, step)
    ensures Shared(b, step).nextMember == b.nextMember
  {
    match step
    case RebalancePass(sorted) =>
      RebalanceKeepsOk(b, sorted);
      RebalanceKeepsRest(b, sorted);
      hide Rebalance, HashOk, SlotsOk;
    case _ => hide HashOk, SlotsOk, ClonedState;
  }

  /** Nothing but a selection moves the member cursor. */
  lemma {:induction false} OnlySelectionsMoveTheCursor(w: World, step: Step)
    requires Inv(w) && Possible(w, step)
    ensures var sel := SelectionOf(w, step);
      Next(w, step).b.nextMember == if sel.Some? then sel.value.k.nextMember else w.b.nextMember
  {
    if step.Other? {
      SharedKeepsCursor(w.b, step.shared);
      hide Shared, RegistryOk, CountsOk;
    } else {
      hide RegistryOk, CountsOk, OutcomeOf, Available, RunAlgorithm;
    }
  }

  // ----- round robin

  /** Round robin with the given members available, and the branch that resets the member
      cursor for the sake of the clone not taken. */
  predicate RoundRobinOver(b: Balancer, list: seq<nat>)
    requires RegistryOk(b)
  {
    && b.algorithm == RoundRobin && !ClobbersCursor(b)
    && Available(b).Some? && Available(b).value.members == list
  }

  /** Any run in which every selection is such a one. What happens in between is left open. */
  ghost predicate RoundRobinSteps(w: World, steps: seq<Step>, list: seq<nat>)
    requires Inv(w)
    decreases |steps|
  {
    steps == [] ||
    (&& Possible(w, steps[0])
     && (SelectionOf(w, steps[0]).Some? ==> RoundRobinOver(w.b, list))
     && (StepKeepsInv(w, steps[0]); RoundRobinSteps(Next(w, steps[0]), steps[1..], list)))
  }

  /** Under round robin the request plays no part. */
  lemma {:induction false} SelectionIsChoice(w: World, step: Step)
    requires RegistryOk(w.b) && Possible(w, step) && ChoosesAtAccept(w.b) && SelectionOf(w, step).Some?
    ensures SelectionOf(w, step) == Choose(w.b, NotHttp)
  {
    hide Choose, RegistryOk;
  }

  lemma {:induction false} CursorFollows(w: World, step: Step, list: seq<nat>)
    requires Inv(w) && Possible(w, step) && (SelectionOf(w, step).Some? ==> RoundRobinOver(w.b, list))
    ensures var sel := SelectionOf(w, step);
      if sel.None? then Next(w, step).b.nextMember == w.b.nextMember
      else sel == Choose(w.b, NotHttp) && Next(w, step).b.nextMember == sel.value.k.nextMember
  {
    hide Next, SelectionOf, RegistryOk, CountsOk, Choose;
    OnlySelectionsMoveTheCursor(w, step);
    if SelectionOf(w, step).Some? { SelectionIsChoice(w, step); }
  }

  /** One more selection in front of a run of selections. */
  lemma {:induction false} SelectionBefore(b: Balancer, rest: seq<Balancer>, list: seq<nat>)
    requires RegistryOk(b) && RoundRobinOver(b, list) && RoundRobinRun(rest, list) && Choose(b, NotHttp).Some?
    requires rest[0].nextMember == Choose(b, NotHttp).value.k.nextMember
    ensures RoundRobinRun([b] + rest, list) && Picks([b] + rest) == [rest[0].nextMember] + Picks(rest)
  {
    hide Choose, Available, ClobbersCursor, RegistryOk;
    var bs := [b] + rest;
    assert forall j :: 0 < j < |bs| ==> bs[j] == rest[j - 1];
    forall j | 0 <= j < |bs| - 1
      ensures && RegistryOk(bs[j]) && bs[j].algorithm == RoundRobin && !ClobbersCursor(bs[j])
        && Choose(bs[j], NotHttp).Some? && Available(bs[j]).Some? && Available(bs[j]).value.members == list
        && bs[j + 1].nextMember == Choose(bs[j], NotHttp).value.k.nextMember
    {
      if j > 0 { assert bs[j] == rest[j - 1] && bs[j + 1] == rest[(j - 1) + 1]; }
    }
  }

  /** The balancers at the selections of the run are a run of selections. */
  lemma {:induction false} SelectionsOf(w: World, steps: seq<Step>, list: seq<nat>) returns (bs: seq<Balancer>)
    requires Inv(w) && list != [] && RoundRobinSteps(w, steps, list)
    ensures RoundRobinRun(bs, list) && Picks(bs) == PicksOf(w, steps) && bs[0].nextMember == w.b.nextMember
    decreases |steps|
  {
    if steps == [] {
      bs := [w.b];
    } else {
      assert RegistryOk(w.b);
      var sel := SelectionOf(w, steps[0]);
      hide Inv, Next, SelectionOf, Choose, RoundRobinOver, RoundRobinRun, RegistryOk, Possible, Picks;
      StepKeepsInv(w, steps[0]);
      CursorFollows(w, steps[0], list);
      var rest := SelectionsOf(Next(w, steps[0]), steps[1..], list);
      var later := PicksOf(Next(w, steps[0]), steps[1..]);
      assert PicksOf(w, steps) == (if sel.Some? then [sel.value.k.nextMember] else []) + later;
      hide PicksOf, RoundRobinSteps;
      assert [] + later == later;
      bs := rest;
      if sel.Some? {
        SelectionBefore(w.b, rest, list);
        bs := [w.b] + rest;
      }
    }
  }

  /** Round-robin fairness over runs of the whole system: n selections over k unchanged
      available members choose each of them n/k times or once more, whatever else happens in
      between, so any k consecutive selections choose each exactly once. */
  lemma {:induction false} RoundRobinFairInRuns(w: World, steps: seq<Step>, list: seq<nat>, x: nat)
    requires Inv(w) && RoundRobinSteps(w, steps, list) && x in list
    ensures var n := |PicksOf(w, steps)|;
      && n / |list| <= Count(PicksOf(w, steps), x) <= n / |list| + 1
      && (n % |list| == 0 ==> Count(PicksOf(w, steps), x) == n / |list|)
  {
    hide PicksOf, RoundRobinSteps, Inv, Count;
    var bs := SelectionsOf(w, steps, list);
    hide RoundRobinRun;
    RoundRobinFair(bs, list, x);
  }

  // ----- least connections

  /** Every selection is by least connections among the given members, and no session loses
      its member. Servers may be commanded, checked and reloaded in between. */
  ghost predicate ArrivalSteps(w: World, steps: seq<Step>, list: seq<nat>, w': World)
    requires Inv(w)
    decreases |steps|
  {
    if steps == [] then w' == w
    else
      && Possible(w, steps[0]) && ArrivalStep(w, steps[0], list)
      && (StepKeepsInv(w, steps[0]); ArrivalSteps(Next(w, steps[0]), steps[1..], list, w'))
  }

  predicate ArrivalStep(w: World, step: Step, list: seq<nat>)
    requires Inv(w) && Possible(w, step)
  {
    && (SelectionOf(w, step).Some? ==>
          w.b.algorithm == LeastConnections && Available(w.b).Some? && Available(w.b).value.members == list)
    && (!step.Other? && w.sessions[step.i].flags.memConnected ==> OutcomeOf(w, step).s.flags.memConnected)
  }

  lemma {:induction false} SameConnectionsEven(v: Servers, w: Servers, list: seq<nat>)
    requires SameConnections(v, w) && Even(v, list)
    ensures Even(w, list)
  {
  }

  lemma {:induction false} CreditEven(v: Servers, list: seq<nat>, m: nat, up: nat, down: nat)
    requires Even(v, list) && down <= up <= 1
    requires up > 0 ==> m in list && forall i :: i in list ==> v.slots[m].c <= v.slots[i].c
    ensures Even(Credit(v, m, up, down), list)
  {
    var w := Credit(v, m, up, down);
    if up == down {
      assert forall i :: 0 <= i < |v.slots| ==> w.slots[i].c == v.slots[i].c;
    } else {
      EvenStep(v, w, list, m);
    }
  }

  /** What a selection by least connections picks is listed and has the fewest. */
  lemma {:induction false} SelectionIsLeast(w: World, step: Step, list: seq<nat>)
    requires Inv(w) && Possible(w, step) && ArrivalStep(w, step, list) && SelectionOf(w, step).Some?
    ensures var m := SelectionOf(w, step).value.k.nextMember;
      m in list && m < |w.b.members.slots| &&
      forall i :: i in list && i < |w.b.members.slots| ==> w.b.members.slots[m].c <= w.b.members.slots[i].c
  {
    SelectionIsChoice(w, step);
    LeastConnectionsPick(w.b);
    hide SelectionOf, Choose, Available, RegistryOk, CountsOk, Next;
    assert |w.b.members.slots| == MAXSERVERS;
  }

  /** What a step joins and drops, as far as the members are concerned. */
  lemma {:induction false} ArrivalCounts(w: World, step: Step, list: seq<nat>)
    requires Inv(w) && Possible(w, step) && !step.Other? && ArrivalStep(w, step, list)
    ensures var o := OutcomeOf(w, step);
      && o.fx.memberDrops <= o.fx.memberJoins <= 1
      && (o.fx.memberJoins > 0 ==> SelectionOf(w, step).Some? && o.s.member == SelectionOf(w, step).value.k.nextMember)
  {
    OutcomeIsCounted(w, step);
    var o := OutcomeOf(w, step);
    hide SelectionOf, OutcomeOf, RegistryOk, CountsOk, Anchored, Settle;
  }

  /** A selection by itself connects nothing. */
  lemma {:induction false} SelectionConnects(w: World, step: Step)
    requires Inv(w) && Possible(w, step)
    ensures var sel := SelectionOf(w, step);
      SameConnections(w.b.members, (if sel.Some? then sel.value.b else w.b).members)
  {
    SelectionIsGood(w, step);
    hide SelectionOf, RegistryOk, CountsOk, Sound;
  }

  lemma {:induction false} MasterKeepsEven(w: World, step: Step, list: seq<nat>)
    requires Inv(w) && Possible(w, step) && !step.Other? && ArrivalStep(w, step, list) && Even(w.b.members, list)
    ensures Even(Next(w, step).b.members, list)
  {
    SelectionConnects(w, step);
    ArrivalCounts(w, step, list);
    if SelectionOf(w, step).Some? { SelectionIsLeast(w, step, list); }
    EvenInRange(w.b.members, list);
    var sel := SelectionOf(w, step);
    var o := OutcomeOf(w, step);
    var v := (if sel.Some? then sel.value.b else w.b).members;
    hide SelectionOf, OutcomeOf, RegistryOk, Inv, Even, Credit, ArrivalStep;
    SameConnectionsEven(w.b.members, v, list);
    CreditEven(v, list, o.s.member, o.fx.memberJoins, o.fx.memberDrops);
  }

  lemma {:induction false} ArrivalKeepsEven(w: World, step: Step, list: seq<nat>)
    requires Inv(w) && Possible(w, step) && ArrivalStep(w, step, list) && Even(w.b.members, list)
    ensures Even(Next(w, step).b.members, list)
  {
    hide Shared, RegistryOk, CountsOk, Even;
    if step.Other? {
      SharedKeeps(w.b, step.shared);
      SameConnectionsEven(w.b.members, Shared(w.b, step.shared).members, list);
    } else {
      MasterKeepsEven(w, step, list);
    }
  }

  lemma {:induction false} EvenInRange(v: Servers, list: seq<nat>)
    requires Even(v, list)
    ensures forall i :: i in list ==> i < |v.slots|
  {
  }

  /** LC keeps connections even, over runs of the whole system: while no session loses its
      member and the available members stay the same at every selection, a spread of at most
      one connection stays at most one, whether or not each connection comes about. */
  lemma {:induction false} LeastConnectionsStaysEven(w: World, steps: seq<Step>, list: seq<nat>, w': World)
    requires Inv(w) && ArrivalSteps(w, steps, list, w') && Even(w.b.members, list)
    ensures Even(w'.b.members, list)
    decreases |steps|
  {
    if steps != [] {
      StepKeepsInv(w, steps[0]);
      ArrivalKeepsEven(w, steps[0], list);
      hide Inv, Next, Even, ArrivalStep;
      LeastConnectionsStaysEven(Next(w, steps[0]), steps[1..], list, w');
    }
  }
}
