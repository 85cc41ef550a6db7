/** The life of one session within the whole system: the events it gets there are a run of it,
    so what is proved about the runs of a session holds in every run of the system. */
module Projection {
  import opened Relay
  import opened RelayInvariants
  import opened RelayStreams
  import opened RelayNonInterference
  import opened RelayDrain
  import opened RelayEnds
  import opened System
  import opened SessionQueue
  import opened Machine

  // ----- runs of a session, from the front

  lemma {:induction false} ThenAssociates(a: Effects, b: Effects, c: Effects)
    ensures a.Then(b).Then(c) == a.Then(b.Then(c))
  {
    assert (a.fromClient + b.fromClient) + c.fromClient == a.fromClient + (b.fromClient + c.fromClient);
    assert (a.fromMember + b.fromMember) + c.fromMember == a.fromMember + (b.fromMember + c.fromMember);
    assert (a.sentMember + b.sentMember) + c.sentMember == a.sentMember + (b.sentMember + c.sentMember);
    assert (a.sentClient + b.sentClient) + c.sentClient == a.sentClient + (b.sentClient + c.sentClient);
    assert (a.sentClone + b.sentClone) + c.sentClone == a.sentClone + (b.sentClone + c.sentClone);
    assert (a.copied + b.copied) + c.copied == a.copied + (b.copied + c.copied);
    assert (a.lostMember + b.lostMember) + c.lostMember == a.lostMember + (b.lostMember + c.lostMember);
    assert (a.lostClient + b.lostClient) + c.lostClient == a.lostClient + (b.lostClient + c.lostClient);
  }

  lemma {:induction false} RunFromFront(s: Session, e: Event, es: seq<Event>)
    ensures Run(s, [e] + es) == Both(Dispatch(s, e), Run(Dispatch(s, e).s, es))
  {
    hide Dispatch, Effects.Then;
    var first := Dispatch(s, e);
    var all := [e] + es;
    if es == [] {
      assert all[..|all| - 1] == [] && all[|all| - 1] == e;
      QuietThen(first.fx);
      QuietIsUnit(first.fx);
    } else {
      var init := es[..|es| - 1];
      var last := es[|es| - 1];
      assert all[..|all| - 1] == [e] + init && all[|all| - 1] == last;
      RunFromFront(s, e, init);
      var mid := Run(first.s, init);
      ThenAssociates(first.fx, mid.fx, Dispatch(mid.s, last).fx);
    }
  }

  // ----- the projection

  /** The events session i gets in a run of the system. */
  ghost function EventsOf(w: World, steps: seq<Step>, i: nat): seq<Event>
    requires Inv(w)
    decreases |steps|
  {
    if steps == [] || !Possible(w, steps[0]) then []
    else
      var here := if steps[0].Handle? && steps[0].i == i then [EventOf(w, steps[0])] else [];
      StepKeepsInv(w, steps[0]);
      here + EventsOf(Next(w, steps[0]), steps[1..], i)
  }

  /** No client is accepted into session i. */
  predicate NoAccept(steps: seq<Step>, i: nat) {
    forall j :: 0 <= j < |steps| ==> !(steps[j].Accept? && steps[j].i == i)
  }

  lemma {:induction false} StepOnSession(w: World, step: Step, i: nat)
    requires Inv(w) && Possible(w, step) && i < |w.sessions| && !(step.Accept? && step.i == i)
    ensures |Next(w, step).sessions| == |w.sessions|
    ensures Next(w, step).sessions[i] ==
      if step.Handle? && step.i == i then Dispatch(w.sessions[i], EventOf(w, step)).s else w.sessions[i]
  {
    hide Inv, Dispatch, Relay.Accept, SelectionOf, Settle, Shared;
  }

  /** In every run of the system in which no client is accepted into it, a session is where its
      own run of the events it gets has taken it. */
  lemma {:induction false} SessionRuns(w: World, steps: seq<Step>, w': World, i: nat)
    requires Inv(w) && Runs(w, steps, w') && i < |w.sessions| && NoAccept(steps, i)
    ensures |w'.sessions| == |w.sessions| && w'.sessions[i] == Run(w.sessions[i], EventsOf(w, steps, i)).s
    decreases |steps|
  {
    if steps != [] {
      var step := steps[0];
      var s := w.sessions[i];
      StepOnSession(w, step, i);
      EventsSplit(w, steps, i);
      hide Inv, Next, Possible, Dispatch, EventOf, EventsOf, Run;
      var later := EventsOf(Next(w, step), steps[1..], i);
      assert NoAccept(steps[1..], i);
      SessionRuns(Next(w, step), steps[1..], w', i);
      if step.Handle? && step.i == i { RunFromFront(s, EventOf(w, step), later); }
    } else {
      assert EventsOf(w, steps, i) == [] && Run(w.sessions[i], []) == Outcome(w.sessions[i], QUIET);
    }
  }

  lemma {:induction false} EventsSplit(w: World, steps: seq<Step>, i: nat)
    requires Inv(w) && steps != [] && Possible(w, steps[0])
    ensures Inv(Next(w, steps[0]))
    ensures var later := EventsOf(Next(w, steps[0]), steps[1..], i);
      EventsOf(w, steps, i) == if steps[0].Handle? && steps[0].i == i then [EventOf(w, steps[0])] + later else later
  {
    StepKeepsInv(w, steps[0]);
    hide Inv, Next, Possible, EventOf;
    var later := EventsOf(Next(w, steps[0]), steps[1..], i);
    assert [] + later == later;
  }

  /** What happened to session i during the run. */
  ghost function LifeOf(w: World, steps: seq<Step>, i: nat): Outcome
    requires Inv(w) && i < |w.sessions|
  {
    Run(w.sessions[i], EventsOf(w, steps, i))
  }

  /** Stream fidelity in the whole system: whatever else happens, the bytes of a client pass
      unchanged and in order, in both directions. */
  lemma {:induction false} StreamFidelityInRuns(w: World, steps: seq<Step>, w': World, i: nat)
    requires Inv(w) && Runs(w, steps, w') && i < |w.sessions| && NoAccept(steps, i) && Live(w.sessions[i])
    ensures i < |w'.sessions| && w'.sessions[i] == LifeOf(w, steps, i).s
    ensures Faithful(w.sessions[i], LifeOf(w, steps, i))
  {
    hide Inv, Runs, Live, EventsOf, Run, Faithful;
    SessionRuns(w, steps, w', i);
    StreamFidelity(w.sessions[i], EventsOf(w, steps, i));
  }

  /** In the whole system, a session has its client until the first of the events it gets that
      ends it, and its clone until the first that costs it or ends the session. */
  lemma {:induction false} LivesUntilEndedInRuns(w: World, steps: seq<Step>, w': World, i: nat)
    requires Inv(w) && Runs(w, steps, w') && i < |w.sessions| && NoAccept(steps, i) && Live(w.sessions[i])
    ensures i < |w'.sessions|
    ensures Live(w'.sessions[i]) <==> Unended(w.sessions[i], EventsOf(w, steps, i))
    ensures w.sessions[i].flags.cloConnected ==>
      (w'.sessions[i].flags.cloConnected <==>
         CloneSpared(w.sessions[i], EventsOf(w, steps, i)) && Unended(w.sessions[i], EventsOf(w, steps, i)))
  {
    hide Inv, Runs, Live, EventsOf, Run, Unended, CloneSpared;
    SessionRuns(w, steps, w', i);
    LivesUntilEnded(w.sessions[i], EventsOf(w, steps, i));
    if w.sessions[i].flags.cloConnected { CloneStaysIff(w.sessions[i], EventsOf(w, steps, i)); }
  }

  /** Clone non-interference in the whole system: in two runs of two systems, two established
      sessions that differ at most in their clone and get the same events but for clone
      events look the same to client and member. */
  lemma {:induction false} CloneNonInterferenceInRuns(
    v: World, steps: seq<Step>, v': World, i: nat, w: World, others: seq<Step>, w': World, j: nat)
    requires Inv(v) && Runs(v, steps, v') && i < |v.sessions| && NoAccept(steps, i)
    requires Inv(w) && Runs(w, others, w') && j < |w.sessions| && NoAccept(others, j)
    requires Front(v.sessions[i]) == Front(w.sessions[j]) && !v.sessions[i].flags.isFresh
    requires WithoutClone(EventsOf(v, steps, i)) == WithoutClone(EventsOf(w, others, j))
    ensures i < |v'.sessions| && j < |w'.sessions| && Front(v'.sessions[i]) == Front(w'.sessions[j])
    ensures SameFront(LifeOf(v, steps, i), LifeOf(w, others, j))
  {
    hide Inv, Runs, EventsOf, Run, WithoutClone, Front;
    SessionRuns(v, steps, v', i);
    SessionRuns(w, others, w', j);
    CloneNonInterference(v.sessions[i], w.sessions[j], EventsOf(v, steps, i), EventsOf(w, others, j));
  }

  /** Graceful drain in the whole system: after the loss of its member, a client that neither
      closes nor fails gets every buffered byte before the session is given back. */
  lemma {:induction false} GracefulDrainInRuns(w: World, steps: seq<Step>, w': World, i: nat)
    requires Inv(w) && Runs(w, steps, w') && i < |w.sessions| && NoAccept(steps, i)
    requires Orphan(w.sessions[i]) && w.sessions[i].toClient != [] && PatientRun(w.sessions[i], EventsOf(w, steps, i))
    ensures i < |w'.sessions| && w'.sessions[i] == LifeOf(w, steps, i).s
    ensures Drains(w.sessions[i], LifeOf(w, steps, i))
    ensures ClientWrites(EventsOf(w, steps, i)) >= |w.sessions[i].toClient| ==> LifeOf(w, steps, i).fx.released == 1
  {
    hide Inv, Runs, EventsOf, Run, Orphan, PatientRun, Drains, ClientWrites;
    SessionRuns(w, steps, w', i);
    GracefulDrain(w.sessions[i], EventsOf(w, steps, i));
  }

  // ----- with the free list

  /** The steps of the system that the moves of the machine make. */
  ghost function StepsOf(m: Machine, moves: seq<Move>): seq<Step>
    requires Inv(m.w) && WellFormed(m.ring)
    decreases |moves|
  {
    if moves == [] || !Allowed(m, moves[0]) then []
    else
      var step := StepOf(m, moves[0]);
      AdvanceKeepsInv(m, moves[0]);
      (if step.Some? then [step.value] else []) + StepsOf(Advance(m, moves[0]), moves[1..])
  }

  /** Before every move of the run session i has its client. */
  ghost predicate HasClient(m: Machine, moves: seq<Move>, i: nat)
    requires Inv(m.w) && WellFormed(m.ring)
    decreases |moves|
  {
    moves == [] || !Allowed(m, moves[0]) ||
    (&& i < |m.w.sessions| && m.w.sessions[i].flags.cliConnected
     && (AdvanceKeepsInv(m, moves[0]); HasClient(Advance(m, moves[0]), moves[1..], i)))
  }

  /** The free list does not hand out a session that has a client. */
  lemma {:induction false} BusyIsNotHandedOut(m: Machine, ids: seq<nat>, move: Move, i: nat)
    requires Good(m, ids) && i < |m.w.sessions| && m.w.sessions[i].flags.cliConnected
    ensures StepOf(m, move).Some? ==> !(StepOf(m, move).value.Accept? && StepOf(m, move).value.i == i)
  {
    EmptyIffHeadIsRear(m.ring, ids);
    if ids != [] {
      TakeRemovesOldest(m.ring, ids);
      assert ids[0] in ids;
    }
    hide Inv, SessionsOk, Represents;
  }

  lemma {:induction false} AdvanceIsStep(m: Machine, move: Move)
    requires Inv(m.w) && WellFormed(m.ring) && Allowed(m, move)
    ensures var step := StepOf(m, move);
      Advance(m, move).w == if step.Some? then Next(m.w, step.value) else m.w
  {
    hide Inv, Next, Releases;
  }

  /** So while it has a client, a session of the machine lives through a run of the system in
      which nobody else is accepted into it, and all of the above holds of it. */
  lemma {:induction false} ClientKeepsItsSession(m: Machine, ids: seq<nat>, moves: seq<Move>, m': Machine, i: nat)
    requires Good(m, ids) && Proceeds(m, moves, m') && HasClient(m, moves, i)
    ensures Runs(m.w, StepsOf(m, moves), m'.w) && NoAccept(StepsOf(m, moves), i)
    decreases |moves|
  {
    if moves != [] {
      var step := StepOf(m, moves[0]);
      BusyIsNotHandedOut(m, ids, moves[0], i);
      assert Inv(m.w) && WellFormed(m.ring);
      AdvanceIsStep(m, moves[0]);
      AdvanceKeepsInv(m, moves[0]);
      var ids' := AdvanceKeepsGood(m, ids, moves[0]);
      var next := Advance(m, moves[0]);
      var later := StepsOf(next, moves[1..]);
      assert step.Some? ==> Possible(m.w, step.value);
      hide Good, Inv, Advance, Allowed, WellFormed, Next, ReleasesTwice, Possible;
      ClientKeepsItsSession(next, ids', moves[1..], m', i);
      if step.Some? {
        RunsBefore(m.w, step.value, later, m'.w);
        assert StepsOf(m, moves) == [step.value] + later;
      } else {
        assert StepsOf(m, moves) == [] + later == later;
      }
    }
  }
}
