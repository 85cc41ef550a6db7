/** The system with its free list: clients are accepted into the sessions the ring hands out,
    and every release of a session goes back to the ring. The ring is the corrected one: its
    remainder is taken by its size, it has a slot to spare, and it is stocked at startup the
    way sessions are given back. */
module Machine {
  import opened Relay
  import opened RelayInvariants
  import opened RelayStreams
  import opened RelayStale
  import opened RelayDrain
  import opened RelayEnds
  import opened System
  import opened SessionQueue

  /** guarded says whether the ownership guard is checked again before the second handler of
      an event; in the source it is not. */
  datatype Machine = Machine(w: World, ring: Ring, guarded: bool)

  datatype Move =
    | Connect(fd: nat, watched: bool, env: Reaches)
    | Serve(i: nat, e: Event, env: Reaches, stale: seq<Byte>)
    | Background(shared: SharedStep)

  /** A session is given back so many times. */
  function GiveBack(q: Ring, id: nat, times: nat): (r: Ring)
    requires WellFormed(q)
    ensures WellFormed(r) && |r.slots| == |q.slots|
  {
    if times == 0 then q else Add(GiveBack(q, id, times - 1), id)
  }

  /** The step of the system a move makes; a client that gets no session makes none. */
  function StepOf(m: Machine, move: Move): Option<Step>
    requires WellFormed(m.ring)
  {
    match move
    case Connect(fd, watched, env) =>
      var grant := Take(m.ring).1;
      if grant.Granted? then Some(Accept(grant.id, fd, watched, env)) else None
    case Serve(i, e, env, stale) => Some(Handle(i, e, env, stale))
    case Background(shared) => Some(Other(shared))
  }

  predicate Allowed(m: Machine, move: Move)
    requires WellFormed(m.ring)
  {
    var step := StepOf(m, move);
    step.Some? ==> Possible(m.w, step.value)
  }

  /** The event as the handlers get it. */
  function EventOf(w: World, step: Step): Event
    requires Inv(w) && Possible(w, step) && step.Handle?
  {
    WithPick(step.e, PickFrom(SelectionOf(w, step), step.env))
  }

  /** How often the step gives its session back. */
  function Releases(w: World, step: Step, guarded: bool): nat
    requires Inv(w) && Possible(w, step) && !step.Other?
  {
    if step.Handle? && guarded then GuardedDispatch(w.sessions[step.i], EventOf(w, step)).fx.released
    else OutcomeOf(w, step).fx.released
  }

  /** The state of the system does not depend on the guard (see GuardReleasesOnce). */
  function Advance(m: Machine, move: Move): Machine
    requires Inv(m.w) && WellFormed(m.ring) && Allowed(m, move)
  {
    var step := StepOf(m, move);
    if step.None? then m
    else if step.value.Other? then m.(w := Next(m.w, step.value))
    else
      var ring := if move.Connect? then Take(m.ring).0 else m.ring;
      m.(w := Next(m.w, step.value), ring := GiveBack(ring, step.value.i, Releases(m.w, step.value, m.guarded)))
  }

  /** Without the guard, an event of a session with a client brings a read that ends the
      session together with readiness to write. */
  predicate ReleasesTwice(m: Machine, move: Move)
    requires Inv(m.w) && WellFormed(m.ring) && Allowed(m, move)
  {
    && !m.guarded && move.Serve? && m.w.sessions[move.i].flags.cliConnected
    && EndsTwice(m.w.sessions[move.i], EventOf(m.w, StepOf(m, move).value))
  }

  predicate NoDuplicates(ids: seq<nat>) {
    forall i, j :: 0 <= i < j < |ids| ==> ids[i] != ids[j]
  }

  /** The queued ids are the sessions without a client, each once. */
  predicate FreeIds(ids: seq<nat>, sessions: seq<Session>) {
    && NoDuplicates(ids)
    && (forall k :: 0 <= k < |ids| ==> ids[k] < |sessions|)
    && (forall i: nat :: i < |sessions| ==> (i in ids <==> !sessions[i].flags.cliConnected))
  }

  /** All is well: the system invariant, every session live and coupled or dead, and the ring
      holding exactly the dead ones. */
  predicate Good(m: Machine, ids: seq<nat>) {
    && Inv(m.w) && SessionsOk(m.w) && |m.w.sessions| < |m.ring.slots|
    && Represents(m.ring, ids) && FreeIds(ids, m.w.sessions)
  }

  // ----- what a master step does to its session

  /** The session keeps its client, or is dead and has been given back. */
  predicate ReleasedAtEnd(s: Session, times: nat) {
    SessionOk(s) && (s.flags.cliConnected <==> times == 0)
  }

  /** An event gives its session back exactly when it is one of those that end it; with the
      guard once, without it twice exactly when the event ends it twice. */
  lemma {:induction false} ServeReleases(s: Session, e: Event, guarded: bool)
    requires SessionOk(s)
    ensures var times := (if guarded then GuardedDispatch(s, e) else Dispatch(s, e)).fx.released;
      if s.flags.cliConnected then
        && ReleasedAtEnd(Dispatch(s, e).s, times) && (times > 0 <==> Ends(s, e))
        && times <= 2 && (times == 2 <==> !guarded && EndsTwice(s, e))
      else Dispatch(s, e) == Outcome(s, QUIET) && times == 0
  {
    GuardReleasesOnce(s, e);
    if s.flags.cliConnected {
      DispatchFaithful(s, e);
      ReleaseCount(s, e);
      EndsIff(s, e);
      hide Dispatch, GuardedDispatch, Conserved, EndsTwice, Ends;
    } else {
      DeadIgnores(s, e);
      hide Dispatch, GuardedDispatch;
    }
  }

  lemma {:induction false} ConnectReleases(s: Session, fd: nat, watched: bool, setsFresh: bool, chooseNow: bool, p: Pick)
    requires Dead(s)
    ensures var o := Relay.Accept(s, fd, watched, setsFresh, chooseNow, p);
      ReleasedAtEnd(o.s, o.fx.released) && o.fx.released <= 1
  {
    AcceptKeepsOk(s, fd, watched, setsFresh, chooseNow, p);
    AcceptOutcome(s, fd, watched, setsFresh, chooseNow, p);
    EstablishReleases(Greet(s, fd, watched, setsFresh), p);
    hide Establish, SessionOk, Greet, Stale, Rejects;
  }

  // ----- the queue follows

  lemma {:induction false} IdsShrink(ids: seq<nat>, sessions: seq<Session>, o: Session)
    requires FreeIds(ids, sessions) && ids != [] && o.flags.cliConnected
    ensures FreeIds(ids[1..], sessions[ids[0] := o])
  {
    var rest := ids[1..];
    assert ids == [ids[0]] + rest;
    assert forall k :: 0 <= k < |rest| ==> rest[k] == ids[k + 1] && rest[k] != ids[0];
  }

  lemma {:induction false} IdsRotate(ids: seq<nat>, sessions: seq<Session>, o: Session)
    requires FreeIds(ids, sessions) && ids != [] && !o.flags.cliConnected
    ensures FreeIds(ids[1..] + [ids[0]], sessions[ids[0] := o])
  {
    var rest := ids[1..];
    var ids' := rest + [ids[0]];
    assert ids == [ids[0]] + rest;
    assert forall k :: 0 <= k < |rest| ==> rest[k] == ids[k + 1] && rest[k] != ids[0];
    forall i: nat ensures i in ids' <==> i in ids {
      assert i in ids' <==> i in rest || i == ids[0];
    }
  }

  lemma {:induction false} IdsGrow(ids: seq<nat>, sessions: seq<Session>, i: nat, o: Session)
    requires FreeIds(ids, sessions) && i < |sessions| && sessions[i].flags.cliConnected && !o.flags.cliConnected
    ensures FreeIds(ids + [i], sessions[i := o])
  {
    var ids' := ids + [i];
    assert i !in ids;
    forall j: nat ensures j in ids' <==> j in ids || j == i {
    }
  }

  lemma {:induction false} IdsStay(ids: seq<nat>, sessions: seq<Session>, i: nat, o: Session)
    requires FreeIds(ids, sessions) && i < |sessions| && sessions[i].flags.cliConnected == o.flags.cliConnected
    ensures FreeIds(ids, sessions[i := o])
  {
  }

  /** The ids below n. */
  function Below(n: nat): (ids: set<nat>)
    ensures |ids| == n && forall id: nat :: id in ids <==> id < n
  {
    if n == 0 then {} else Below(n - 1) + {n - 1}
  }

  function IdSet(ids: seq<nat>): (all: set<nat>)
    ensures forall id :: id in all <==> id in ids
    ensures |all| <= |ids| && (NoDuplicates(ids) ==> |all| == |ids|)
  {
    if ids == [] then {} else
      var init := ids[..|ids| - 1];
      assert ids == init + [ids[|ids| - 1]];
      assert NoDuplicates(ids) ==> ids[|ids| - 1] !in init;
      IdSet(init) + {ids[|ids| - 1]}
  }

  lemma {:induction false} SubsetCount<T>(a: set<T>, b: set<T>)
    requires a <= b
    ensures |a| <= |b|
  {
    if a != {} {
      var x :| x in a;
      SubsetCount(a - {x}, b - {x});
    }
  }

  lemma {:induction false} FreeIdsFit(ids: seq<nat>, sessions: seq<Session>)
    requires FreeIds(ids, sessions)
    ensures |ids| <= |sessions|
  {
    SubsetCount(IdSet(ids), Below(|sessions|));
  }

  // ----- every move

  lemma {:induction false} GiveBackTimes(q: Ring, id: nat)
    requires WellFormed(q)
    ensures GiveBack(q, id, 0) == q && GiveBack(q, id, 1) == Add(q, id) && GiveBack(q, id, 2) == Add(Add(q, id), id)
  {
    assert GiveBack(q, id, 0) == q;
    assert GiveBack(q, id, 1) == Add(q, id);
  }

  lemma {:induction false} ConnectOutcome(w: World, step: Step)
    requires Inv(w) && SessionsOk(w) && Possible(w, step) && step.Accept?
    requires !w.sessions[step.i].flags.cliConnected
    ensures Disciplined(w, step)
    ensures ReleasedAtEnd(OutcomeOf(w, step).s, OutcomeOf(w, step).fx.released) && OutcomeOf(w, step).fx.released <= 1
  {
    var p := PickFrom(SelectionOf(w, step), step.env);
    assert SessionOk(w.sessions[step.i]);
    hide SelectionOf, PickFrom, Relay.Accept, Inv, ReleasedAtEnd;
    ConnectReleases(w.sessions[step.i], step.fd, step.watched, w.setsFresh, ChoosesAtAccept(w.b), p);
  }

  lemma {:induction false} ConnectKeepsGood(m: Machine, ids: seq<nat>, move: Move) returns (ids': seq<nat>)
    requires Good(m, ids) && move.Connect? && Allowed(m, move)
    ensures Good(Advance(m, move), ids')
  {
    EmptyIffHeadIsRear(m.ring, ids);
    if ids == [] {
      ids' := ids;
    } else {
      TakeRemovesOldest(m.ring, ids);
      var i := ids[0];
      assert i in ids;
      var step := StepOf(m, move).value;
      hide OutcomeOf, SelectionOf, Inv, SessionsOk, Represents, Take, Settle, Add, SessionOk;
      ConnectOutcome(m.w, step);
      var o := OutcomeOf(m.w, step);
      StepKeepsInv(m.w, step);
      StepKeepsSessions(m.w, step);
      var ring := Take(m.ring).0;
      GiveBackTimes(ring, i);
      hide GiveBack, FreeIds;
      if o.fx.released == 0 {
        ids' := ids[1..];
        IdsShrink(ids, m.w.sessions, o.s);
      } else {
        ids' := ids[1..] + [i];
        IdsRotate(ids, m.w.sessions, o.s);
        FreeIdsFit(ids', m.w.sessions[i := o.s]);
        AddAppends(ring, ids[1..], i);
      }
    }
  }

  /** The step of a Serve move. */
  function Handled(move: Move): Step
    requires move.Serve?
  {
    Handle(move.i, move.e, move.env, move.stale)
  }

  /** What a Serve move comes to. */
  predicate Served(m: Machine, move: Move, m': Machine, o: Session, times: nat)
    requires WellFormed(m.ring) && move.Serve? && move.i < |m.w.sessions|
  {
    && m'.w.sessions == m.w.sessions[move.i := o] && m'.ring == GiveBack(m.ring, move.i, times) && times <= 2
    && (if m.w.sessions[move.i].flags.cliConnected then o.flags.cliConnected <==> times == 0
        else o == m.w.sessions[move.i] && times == 0)
  }

  lemma {:induction false} ServeOutcome(m: Machine, move: Move) returns (o: Session, times: nat)
    requires Inv(m.w) && SessionsOk(m.w) && WellFormed(m.ring) && move.Serve? && Allowed(m, move)
    ensures Served(m, move, Advance(m, move), o, times) && (times == 2 <==> ReleasesTwice(m, move))
  {
    var step := Handled(move);
    var e := EventOf(m.w, step);
    o, times := OutcomeOf(m.w, step).s, Releases(m.w, step, m.guarded);
    hide SelectionOf, PickFrom, Dispatch, GuardedDispatch, Inv, SessionOk, EndsTwice, GiveBack, Settle;
    assert SessionOk(m.w.sessions[move.i]);
    ServeReleases(m.w.sessions[move.i], e, m.guarded);
  }

  lemma {:induction false} ServeKeepsWorld(m: Machine, move: Move)
    requires Inv(m.w) && SessionsOk(m.w) && WellFormed(m.ring) && move.Serve? && Allowed(m, move)
    ensures Inv(Advance(m, move).w) && SessionsOk(Advance(m, move).w)
  {
    hide Inv, SessionsOk, Next, Releases, GiveBack;
    StepKeepsInv(m.w, Handled(move));
    StepKeepsSessions(m.w, Handled(move));
  }

  /** Given back at most once, the session goes where it belongs. */
  lemma {:induction false} ServedKeepsIds(m: Machine, ids: seq<nat>, move: Move, m': Machine, o: Session, times: nat)
    returns (ids': seq<nat>)
    requires Represents(m.ring, ids) && FreeIds(ids, m.w.sessions) && |m.w.sessions| < |m.ring.slots|
    requires move.Serve? && move.i < |m.w.sessions| && Served(m, move, m', o, times) && times <= 1
    ensures Represents(m'.ring, ids') && FreeIds(ids', m'.w.sessions)
    ensures |m'.ring.slots| == |m.ring.slots| && |m'.w.sessions| == |m.w.sessions|
  {
    assert WellFormed(m.ring);
    hide Represents, Add, FreeIds;
    GiveBackTimes(m.ring, move.i);
    hide GiveBack;
    if times == 0 {
      ids' := ids;
      IdsStay(ids, m.w.sessions, move.i, o);
    } else {
      ids' := ids + [move.i];
      IdsGrow(ids, m.w.sessions, move.i, o);
      FreeIdsFit(ids', m.w.sessions[move.i := o]);
      AddAppends(m.ring, ids, move.i);
    }
  }

  lemma {:induction false} ServeKeepsGood(m: Machine, ids: seq<nat>, move: Move) returns (ids': seq<nat>)
    requires Good(m, ids) && move.Serve? && Allowed(m, move) && !ReleasesTwice(m, move)
    ensures Good(Advance(m, move), ids')
  {
    assert move.i < |m.w.sessions| && WellFormed(m.ring);
    hide Inv, SessionsOk, Represents, FreeIds, ReleasesTwice, Advance, Allowed, WellFormed;
    ServeKeepsWorld(m, move);
    var o, times := ServeOutcome(m, move);
    assert times <= 1 by { ServedTimes(m, move, Advance(m, move), o, times); }
    hide Served;
    ids' := ServedKeepsIds(m, ids, move, Advance(m, move), o, times);
  }

  lemma {:induction false} ServedTimes(m: Machine, move: Move, m': Machine, o: Session, times: nat)
    requires WellFormed(m.ring) && move.Serve? && move.i < |m.w.sessions| && Served(m, move, m', o, times) && times != 2
    ensures times <= 1
  {
    hide GiveBack;
  }

  /** Every move keeps all of it, unless it gives a session back twice. */
  lemma {:induction false} AdvanceKeepsGood(m: Machine, ids: seq<nat>, move: Move) returns (ids': seq<nat>)
    requires Good(m, ids) && Allowed(m, move) && !ReleasesTwice(m, move)
    ensures Good(Advance(m, move), ids')
  {
    match move
    case Connect(_, _, _) => hide Good, Advance, Allowed; ids' := ConnectKeepsGood(m, ids, move);
    case Serve(_, _, _, _) => hide Good, Advance, Allowed; ids' := ServeKeepsGood(m, ids, move);
    case Background(shared) =>
      ids' := ids;
      StepKeepsInv(m.w, Other(shared));
      hide Shared, Inv, FreeIds, Represents;
  }

  /** A session given back twice ends up queued twice, or makes the ring read as empty. */
  lemma {:induction false} TwiceQueued(q: Ring, ids: seq<nat>, i: nat, sessions: seq<Session>, ids': seq<nat>)
    requires Represents(q, ids) && FreeIds(ids + [i], sessions) && |sessions| < |q.slots|
    requires Represents(Add(Add(q, i), i), ids')
    ensures !FreeIds(ids', sessions)
  {
    FreeIdsFit(ids + [i], sessions);
    AddAppends(q, ids, i);
    AddAppends(Add(q, i), ids + [i], i);
    assert |Add(q, i).slots| == |q.slots|;
    assert (ids + [i])[|ids|] == i;
    if |ids| + 2 < |q.slots| {
      RepresentsOne(Add(Add(q, i), i), ids', ids + [i] + [i]);
      assert ids'[|ids|] == ids'[|ids| + 1] == i;
    } else {
      RepresentsOne(Add(Add(q, i), i), ids', []);
      assert i in ids + [i] && i !in ids';
    }
  }

  /** The condition is exact: after a move that gives a session back twice, the ring is no
      list of the sessions without a client. */
  lemma {:induction false} DoubleReleaseBreaks(m: Machine, ids: seq<nat>, move: Move, ids': seq<nat>)
    requires Good(m, ids) && Allowed(m, move) && ReleasesTwice(m, move)
    ensures !Good(Advance(m, move), ids')
  {
    var i := move.i;
    assert i < |m.w.sessions| && m.w.sessions[i].flags.cliConnected;
    hide Inv, SessionsOk, Represents, Add, FreeIds, ReleasesTwice, Advance, Allowed;
    var o, times := ServeOutcome(m, move);
    GiveBackTimes(m.ring, i);
    hide GiveBack;
    IdsGrow(ids, m.w.sessions, i, o);
    if Represents(Add(Add(m.ring, i), i), ids') {
      TwiceQueued(m.ring, ids, i, m.w.sessions[i := o], ids');
    }
  }

  // ----- runs

  /** The moves lead from m to m', and none gives a session back twice; with the guard none
      can. */
  ghost predicate Proceeds(m: Machine, moves: seq<Move>, m': Machine)
    requires Inv(m.w) && WellFormed(m.ring)
    decreases |moves|
  {
    if moves == [] then m' == m
    else
      && Allowed(m, moves[0]) && !ReleasesTwice(m, moves[0])
      && (AdvanceKeepsInv(m, moves[0]); Proceeds(Advance(m, moves[0]), moves[1..], m'))
  }

  lemma {:induction false} AdvanceKeepsInv(m: Machine, move: Move)
    requires Inv(m.w) && WellFormed(m.ring) && Allowed(m, move)
    ensures Inv(Advance(m, move).w) && WellFormed(Advance(m, move).ring)
  {
    if StepOf(m, move).Some? { StepKeepsInv(m.w, StepOf(m, move).value); }
    hide Inv, Next, OutcomeOf, Releases;
  }

  /** The moves lead from m to m', whatever they release. */
  ghost predicate Leads(m: Machine, moves: seq<Move>, m': Machine)
    requires Inv(m.w) && WellFormed(m.ring)
    decreases |moves|
  {
    if moves == [] then m' == m
    else Allowed(m, moves[0]) && (AdvanceKeepsInv(m, moves[0]); Leads(Advance(m, moves[0]), moves[1..], m'))
  }

  lemma {:induction false} LeadsBefore(m: Machine, move: Move, moves: seq<Move>, m': Machine)
    requires Inv(m.w) && WellFormed(m.ring) && Allowed(m, move)
    requires Inv(Advance(m, move).w) && WellFormed(Advance(m, move).ring) && Leads(Advance(m, move), moves, m')
    ensures Leads(m, [move] + moves, m')
  {
    hide Inv, Advance, Allowed, WellFormed;
    assert ([move] + moves)[1..] == moves;
  }

  /** The machine at the corrected startup: n sessions, all given to a ring over memory with
      more slots. */
  function Booted(n: nat, memory: seq<nat>, setsFresh: bool, guarded: bool): Machine
    requires n < |memory|
  {
    Machine(Start(n, setsFresh), Stocked(memory, n), guarded)
  }

  lemma {:induction false} BootedIsGood(n: nat, memory: seq<nat>, setsFresh: bool, guarded: bool)
    requires n < |memory|
    ensures Good(Booted(n, memory, setsFresh, guarded), Upto(n))
  {
    StartOk(n, setsFresh);
    StartIsFree(n, setsFresh);
    StockedRepresents(memory, n);
    hide Inv, SessionsOk, Represents, FreeIds, Stocked, Upto;
  }

  lemma {:induction false} StartIsFree(n: nat, setsFresh: bool)
    ensures SessionsOk(Start(n, setsFresh)) && FreeIds(Upto(n), Start(n, setsFresh).sessions)
  {
    var sessions := Start(n, setsFresh).sessions;
    assert forall i :: 0 <= i < |sessions| ==> sessions[i] == NEW_SESSION;
    assert SessionOk(NEW_SESSION) && !NEW_SESSION.flags.cliConnected;
    hide SessionOk, Upto;
    forall i: nat | i < n ensures i in Upto(n) {
      assert Upto(n)[i] == i;
    }
  }

  lemma {:induction false} RunStaysGood(m: Machine, ids: seq<nat>, moves: seq<Move>, m': Machine) returns (ids': seq<nat>)
    requires Good(m, ids) && Proceeds(m, moves, m')
    ensures Good(m', ids')
    decreases |moves|
  {
    if moves == [] {
      ids' := ids;
    } else {
      AdvanceKeepsInv(m, moves[0]);
      var mid := AdvanceKeepsGood(m, ids, moves[0]);
      hide Good, Advance, Allowed, WellFormed, Inv, ReleasesTwice;
      ids' := RunStaysGood(Advance(m, moves[0]), mid, moves[1..], m');
    }
  }

  lemma {:induction false} GoodRefusal(m: Machine, ids: seq<nat>)
    requires Good(m, ids)
    ensures Take(m.ring).1 == NoSession <==>
      forall i :: 0 <= i < |m.w.sessions| ==> m.w.sessions[i].flags.cliConnected
  {
    EmptyIffHeadIsRear(m.ring, ids);
    hide Inv, SessionsOk;
    if ids != [] { assert ids[0] in ids; }
  }

  /** Some sequence of moves leads from startup to m. */
  ghost predicate Reached(n: nat, memory: seq<nat>, setsFresh: bool, guarded: bool, moves: seq<Move>, m: Machine)
    requires n < |memory|
  {
    BootedIsGood(n, memory, setsFresh, guarded);
    Proceeds(Booted(n, memory, setsFresh, guarded), moves, m)
  }

  /** The whole system, from the corrected startup: with the guard in every run, without it in
      every run in which no event gives a session back twice, no connected session points at
      a free slot, every session is live and coupled or dead, the ring holds exactly the dead
      ones, each once, and a client is turned away for want of a session exactly when every
      session has a client. */
  lemma {:induction false} WholeSystem(n: nat, memory: seq<nat>, setsFresh: bool, guarded: bool, moves: seq<Move>, m: Machine)
    returns (ids: seq<nat>)
    requires n < |memory| && Reached(n, memory, setsFresh, guarded, moves, m)
    ensures Inv(m.w) && SafeReferences(m.w) && SessionsOk(m.w)
    ensures Represents(m.ring, ids) && FreeIds(ids, m.w.sessions)
    ensures Take(m.ring).1 == NoSession <==>
      forall i :: 0 <= i < |m.w.sessions| ==> m.w.sessions[i].flags.cliConnected
  {
    BootedIsGood(n, memory, setsFresh, guarded);
    hide Proceeds, Booted, SafeReferences, Take;
    ids := RunStaysGood(Booted(n, memory, setsFresh, guarded), Upto(n), moves, m);
    hide Inv, SessionsOk, FreeIds, Represents, Upto;
    InvIsSafe(m.w);
    GoodRefusal(m, ids);
  }
}
