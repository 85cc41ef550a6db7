/** The ring of unused sessions: as the source fills and reads it, and the free list it is
    meant to be. */
module SessionQueue {
  import opened Modular

  /** The ring: session ids in slots, the last slot handed out and the last slot filled. */
  datatype Ring = Ring(slots: seq<nat>, head: nat, rear: nat)

  /** What an allocation comes to; taking a remainder by zero stops the process. */
  datatype Grant = Granted(id: nat) | NoSession | DivisionByZero

  predicate WellFormed(q: Ring) {
    q.head < |q.slots| && q.rear < |q.slots|
  }

  // ----- the operations of the source

  /** The filling loop of initialize_unused_session over given memory: it writes the slot at
      rear and then advances. The source runs it with as many sessions as there are slots. */
  function Loaded(memory: seq<nat>, n: nat): (q: Ring)
    requires memory != []
    ensures WellFormed(q) && |q.slots| == |memory| && q.head == 0
  {
    if n == 0 then Ring(memory, 0, 0)
    else
      var q := Loaded(memory, n - 1);
      Ring(q.slots[q.rear := n - 1], 0, (q.rear + 1) % |memory|)
  }

  /** get_new_session: the remainder is taken by head. */
  function GetNewSession(q: Ring): (Ring, Grant)
    requires WellFormed(q)
  {
    if q.head == q.rear then (q, NoSession)
    else if q.head == 0 then (q, DivisionByZero)
    else
      var head := (q.head + 1) % q.head;
      (q.(head := head), Granted(q.slots[head]))
  }

  /** add_unused_session. */
  function Add(q: Ring, id: nat): Ring
    requires WellFormed(q)
  {
    var rear := (q.rear + 1) % |q.slots|;
    q.(rear := rear, slots := q.slots[rear := id])
  }

  /** Allocation with the remainder pop_unused_session takes, by the size of the ring. */
  function Take(q: Ring): (Ring, Grant)
    requires WellFormed(q)
  {
    if q.head == q.rear then (q, NoSession)
    else
      var head := (q.head + 1) % |q.slots|;
      (q.(head := head), Granted(q.slots[head]))
  }

  /** The two remainders agree on a ring that is not empty in one situation only. */
  lemma {:induction false} RemaindersAgree(q: Ring)
    requires WellFormed(q) && q.head != q.rear
    ensures GetNewSession(q) == Take(q) <==> q.head == 1 && |q.slots| == 2
  {
    var h, n := q.head, |q.slots|;
    if h == 1 {
      assert (h + 1) % h == 0;
      if n > 2 { ModOnce(h + 1, n); } else { ModOnce(h + 1, n); }
    } else if h > 1 {
      ModOnce(h + 1, h);
      ModOnce(h + 1, n);
    }
  }

  /** What allocation as written comes to: on a ring that is not empty it stops the process with
      head at 0, hands out the first slot with head at 1, and the second slot otherwise. */
  lemma {:induction false} GrantsFirstSlotsOnly(q: Ring)
    requires WellFormed(q)
    ensures var r := GetNewSession(q);
      if q.head == q.rear then r == (q, NoSession)
      else if q.head == 0 then r == (q, DivisionByZero)
      else if q.head == 1 then r == (q.(head := 0), Granted(q.slots[0]))
      else r == (q.(head := 1), Granted(q.slots[1]))
  {
    if q.head == 1 {
      assert (q.head + 1) % q.head == 0;
    } else if q.head > 1 {
      ModOnce(q.head + 1, q.head);
    }
  }

  // ----- what the source makes of it

  /** What the callers do: ask for a session, or give back one they hold. */
  datatype Op = Acquire | Release(id: nat)

  /** The ring and the sessions held by clients, as often as they have been handed out. */
  datatype Pool = Pool(ring: Ring, held: multiset<nat>)

  predicate Legal(p: Pool, op: Op) {
    op.Release? ==> op.id in p.held
  }

  /** One step with the allocation as written. */
  function StepAsWritten(p: Pool, op: Op): (Pool, Grant)
    requires WellFormed(p.ring)
    ensures WellFormed(StepAsWritten(p, op).0.ring)
  {
    match op
    case Acquire =>
      var (ring, grant) := GetNewSession(p.ring);
      (Pool(ring, if grant.Granted? then p.held + multiset{grant.id} else p.held), grant)
    case Release(id) => (Pool(Add(p.ring, id), p.held - multiset{id}), NoSession)
  }

  predicate RunAsWritten(p: Pool, ops: seq<Op>, p': Pool)
    requires WellFormed(p.ring)
    decreases |ops|
  {
    if ops == [] then p' == p
    else Legal(p, ops[0]) && RunAsWritten(StepAsWritten(p, ops[0]).0, ops[1..], p')
  }

  /** As written, no session is ever handed out: in every run from the start, every attempt
      to allocate fails, although all sessions are unused. */
  lemma {:induction false} NoSessionIsEverGranted(memory: seq<nat>, ops: seq<Op>, p: Pool)
    requires memory != []
    requires RunAsWritten(Pool(Loaded(memory, |memory|), multiset{}), ops, p)
    ensures p == Pool(Loaded(memory, |memory|), multiset{}) && StepAsWritten(p, Acquire).1 == NoSession
    decreases |ops|
  {
    LoadedReadsEmpty(memory);
    hide Loaded;
    if ops != [] {
      NoSessionIsEverGranted(memory, ops[1..], p);
    }
  }

  // ----- the free list the ring is meant to be

  /** The ring holds the given ids, oldest first, from the slot behind head up to rear. */
  predicate Represents(q: Ring, ids: seq<nat>) {
    && WellFormed(q) && |ids| < |q.slots|
    && q.rear == (q.head + |ids|) % |q.slots|
    && forall i :: 0 <= i < |ids| ==> q.slots[(q.head + 1 + i) % |q.slots|] == ids[i]
  }

  lemma {:induction false} EmptyIffHeadIsRear(q: Ring, ids: seq<nat>)
    requires Represents(q, ids)
    ensures q.head == q.rear <==> ids == []
  {
    ModOnce(q.head + |ids|, |q.slots|);
  }

  lemma {:induction false} TakeRemovesOldest(q: Ring, ids: seq<nat>)
    requires Represents(q, ids) && ids != []
    ensures Take(q).1 == Granted(ids[0]) && Represents(Take(q).0, ids[1..])
  {
    EmptyIffHeadIsRear(q, ids);
    var n := |q.slots|;
    var q' := Take(q).0;
    assert q.slots[(q.head + 1 + 0) % n] == ids[0];
    ModOnce(q.head + 1, n);
    ModOnce(q.head + |ids|, n);
    ModOnce(q'.head + (|ids| - 1), n);
    forall i | 0 <= i < |ids[1..]| ensures q'.slots[(q'.head + 1 + i) % n] == ids[1..][i] {
      ModOnce(q'.head + 1 + i, n);
      ModOnce(q.head + 1 + (i + 1), n);
      assert q.slots[(q.head + 1 + (i + 1)) % n] == ids[i + 1];
    }
  }

  /** Giving a session back appends it to the list exactly when a slot remains free behind
      it; on a ring with one slot left, the addition makes the whole list read as empty. */
  lemma {:induction false} AddAppends(q: Ring, ids: seq<nat>, id: nat)
    requires Represents(q, ids)
    ensures Represents(Add(q, id), ids + [id]) <==> |ids| + 1 < |q.slots|
    ensures |ids| + 1 == |q.slots| ==> Represents(Add(q, id), [])
  {
    var n := |q.slots|;
    var q' := Add(q, id);
    ModOnce(q.head + |ids|, n);
    ModOnce(q.rear + 1, n);
    ModOnce(q.head + (|ids| + 1), n);
    if |ids| + 1 < n {
      var ids' := ids + [id];
      forall i | 0 <= i < |ids'| ensures q'.slots[(q'.head + 1 + i) % n] == ids'[i] {
        ModOnce(q.head + 1 + i, n);
        if i < |ids| {
          assert q.slots[(q.head + 1 + i) % n] == ids[i];
        }
      }
    } else {
      assert (q.head + 0) % n == q.head by { ModOnce(q.head, n); }
    }
  }

  /** One step with the corrected remainder. */
  function PoolStep(p: Pool, op: Op): (Pool, Grant)
    requires WellFormed(p.ring)
    ensures WellFormed(PoolStep(p, op).0.ring)
  {
    match op
    case Acquire =>
      var (ring, grant) := Take(p.ring);
      (Pool(ring, if grant.Granted? then p.held + multiset{grant.id} else p.held), grant)
    case Release(id) => (Pool(Add(p.ring, id), p.held - multiset{id}), NoSession)
  }

  /** The ids the ring holds after a step. */
  function StepIds(ids: seq<nat>, op: Op): seq<nat> {
    match op
    case Acquire => if ids == [] then [] else ids[1..]
    case Release(id) => ids + [id]
  }

  /** The queued and the held sessions are all the sessions, each as often as it should be. */
  predicate Accounted(ids: seq<nat>, held: multiset<nat>, all: multiset<nat>) {
    multiset(ids) + held == all
  }

  /** What a step keeps, on a ring with more slots than there are sessions: the account, and
      that an allocation fails exactly when everything has been handed out. */
  lemma {:induction false} StepKeepsAccount(p: Pool, ids: seq<nat>, all: multiset<nat>, op: Op)
    requires Represents(p.ring, ids) && Accounted(ids, p.held, all) && |all| < |p.ring.slots| && Legal(p, op)
    ensures Represents(PoolStep(p, op).0.ring, StepIds(ids, op))
    ensures Accounted(StepIds(ids, op), PoolStep(p, op).0.held, all)
    ensures op.Acquire? ==>
      && (PoolStep(p, op).1.NoSession? <==> p.held == all)
      && (PoolStep(p, op).1.Granted? ==> PoolStep(p, op).1.id in all - p.held)
  {
    EmptyIffHeadIsRear(p.ring, ids);
    assert |multiset(ids)| == |ids|;
    match op
    case Acquire =>
      if ids != [] {
        TakeRemovesOldest(p.ring, ids);
        assert ids == [ids[0]] + ids[1..];
        assert ids[0] in multiset(ids);
      }
      hide Represents;
    case Release(id) =>
      assert |p.held| >= 1;
      AddAppends(p.ring, ids, id);
      hide Represents;
  }

  predicate PoolRun(p: Pool, ops: seq<Op>, p': Pool)
    requires WellFormed(p.ring)
    decreases |ops|
  {
    if ops == [] then p' == p
    else Legal(p, ops[0]) && PoolRun(PoolStep(p, ops[0]).0, ops[1..], p')
  }

  /** In every run on a ring with a slot to spare, what is queued and what is held is what
      there was, and allocation fails exactly when all of that is held. */
  lemma {:induction false} RunKeepsAccount(p: Pool, ids: seq<nat>, all: multiset<nat>, ops: seq<Op>, p': Pool)
    returns (ids': seq<nat>)
    requires Represents(p.ring, ids) && Accounted(ids, p.held, all) && |all| < |p.ring.slots|
    requires PoolRun(p, ops, p')
    ensures Represents(p'.ring, ids') && Accounted(ids', p'.held, all)
    ensures PoolStep(p', Acquire).1.NoSession? <==> p'.held == all
    ensures PoolStep(p', Acquire).1.Granted? ==> PoolStep(p', Acquire).1.id in all - p'.held
    decreases |ops|
  {
    if ops == [] {
      ids' := ids;
      StepKeepsAccount(p, ids, all, Acquire);
    } else {
      StepKeepsAccount(p, ids, all, ops[0]);
      hide Represents, Accounted;
      ids' := RunKeepsAccount(PoolStep(p, ops[0]).0, StepIds(ids, ops[0]), all, ops[1..], p');
    }
  }

  /** The ids below n, in order. */
  function Upto(n: nat): (ids: seq<nat>)
    ensures |ids| == n && forall i :: 0 <= i < n ==> ids[i] == i
  {
    if n == 0 then [] else Upto(n - 1) + [n - 1]
  }

  lemma {:induction false} CountBehind(s: seq<nat>, x: nat, id: nat)
    ensures multiset(s + [x])[id] == multiset(s)[id] + (if id == x then 1 else 0)
  {
  }

  lemma {:induction false} CountInFront(x: nat, s: seq<nat>, id: nat)
    ensures multiset([x] + s)[id] == multiset(s)[id] + (if id == x then 1 else 0)
  {
  }

  /** Every session below n, once. */
  lemma {:induction false} UptoCounts(n: nat, id: nat)
    ensures multiset(Upto(n))[id] == if id < n then 1 else 0
  {
    if n > 0 {
      UptoCounts(n - 1, id);
      CountBehind(Upto(n - 1), n - 1, id);
    }
  }

  /** The sessions below n are queued or held, each once; a full scan finds an unused one
      exactly when one is not held. */
  predicate Partition(ids: seq<nat>, held: multiset<nat>, n: nat) {
    && (forall id :: id in ids ==> id < n) && (forall id :: id in held ==> id < n)
    && (forall id: nat :: id < n ==> multiset(ids)[id] + held[id] == 1)
  }

  lemma {:induction false} AccountIsPartition(ids: seq<nat>, held: multiset<nat>, n: nat)
    ensures Accounted(ids, held, multiset(Upto(n))) <==> Partition(ids, held, n)
  {
    var all := multiset(Upto(n));
    forall id: nat ensures all[id] == if id < n then 1 else 0 {
      UptoCounts(n, id);
    }
    if Accounted(ids, held, all) {
      forall id | id in ids || id in held ensures id < n {
        assert id in multiset(ids) + held;
      }
      forall id: nat | id < n ensures multiset(ids)[id] + held[id] == 1 {
        assert (multiset(ids) + held)[id] == all[id];
      }
    }
    if Partition(ids, held, n) {
      forall id: nat ensures (multiset(ids) + held)[id] == all[id] {
        assert id in multiset(ids) <==> id in ids;
      }
    }
  }

  /** The free list refines the scan in every run, when the ring has a slot to spare. */
  lemma {:induction false} FreeListRefinesScan(p: Pool, ids: seq<nat>, n: nat, ops: seq<Op>, p': Pool)
    returns (ids': seq<nat>)
    requires Represents(p.ring, ids) && Partition(ids, p.held, n) && n < |p.ring.slots|
    requires PoolRun(p, ops, p')
    ensures Represents(p'.ring, ids') && Partition(ids', p'.held, n)
    ensures PoolStep(p', Acquire).1.NoSession? <==> forall id: nat :: id < n ==> id in p'.held
    ensures PoolStep(p', Acquire).1.Granted? ==> PoolStep(p', Acquire).1.id < n && PoolStep(p', Acquire).1.id !in p'.held
  {
    var all := multiset(Upto(n));
    AccountIsPartition(ids, p.held, n);
    ids' := RunKeepsAccount(p, ids, all, ops, p');
    AccountIsPartition(ids', p'.held, n);
    AccountIsPartition([], p'.held, n);
    hide PoolRun, Represents, Accounted;
    var grant := PoolStep(p', Acquire).1;
    if grant.Granted? { UptoCounts(n, grant.id); }
    hide Upto;
    assert p'.held == all <==> Accounted([], p'.held, all) by { NothingQueued(p'.held, all); }
    assert forall id :: id in p'.held ==> id < n;
  }

  lemma {:induction false} NothingQueued(held: multiset<nat>, all: multiset<nat>)
    ensures Accounted([], held, all) <==> held == all
  {
    assert multiset([]) + held == held;
  }

  /** The corrected startup: n sessions are given to a ring over given memory the way
      sessions are given back. */
  function Stocked(memory: seq<nat>, n: nat): (q: Ring)
    requires memory != []
    ensures WellFormed(q) && |q.slots| == |memory|
  {
    if n == 0 then Ring(memory, 0, 0) else Add(Stocked(memory, n - 1), n - 1)
  }

  lemma {:induction false} StockedRepresents(memory: seq<nat>, n: nat)
    requires n < |memory|
    ensures Represents(Stocked(memory, n), Upto(n))
  {
    if n == 0 {
      ModOnce(0, |memory|);
    } else {
      StockedRepresents(memory, n - 1);
      AddAppends(Stocked(memory, n - 1), Upto(n - 1), n - 1);
    }
  }

  /** With all three corrections, the remainder, the spare slot and the stocking, allocation
      fails in every run from startup exactly when every session is held, and hands out
      sessions that are not. */
  lemma {:induction false} FreeListFromStart(memory: seq<nat>, n: nat, ops: seq<Op>, p: Pool)
    requires n < |memory| && PoolRun(Pool(Stocked(memory, n), multiset{}), ops, p)
    ensures WellFormed(p.ring)
    ensures PoolStep(p, Acquire).1.NoSession? <==> forall id: nat :: id < n ==> id in p.held
    ensures PoolStep(p, Acquire).1.Granted? ==> PoolStep(p, Acquire).1.id < n && PoolStep(p, Acquire).1.id !in p.held
  {
    StockedRepresents(memory, n);
    assert Accounted(Upto(n), multiset{}, multiset(Upto(n)));
    AccountIsPartition(Upto(n), multiset{}, n);
    var ids := FreeListRefinesScan(Pool(Stocked(memory, n), multiset{}), Upto(n), n, ops, p);
  }

  /** The spare slot is needed: a stocked ring refuses its first session if and only if it
      was given as many as it has slots. */
  lemma {:induction false} SpareSlotNeeded(memory: seq<nat>, sessions: nat)
    requires 0 < sessions <= |memory|
    ensures Take(Stocked(memory, sessions)).1 == NoSession <==> sessions == |memory|
  {
    if sessions < |memory| {
      StockedRepresents(memory, sessions);
      EmptyIffHeadIsRear(Stocked(memory, sessions), Upto(sessions));
    } else {
      StockedRepresents(memory, sessions - 1);
      AddAppends(Stocked(memory, sessions - 1), Upto(sessions - 1), sessions - 1);
      EmptyIffHeadIsRear(Stocked(memory, sessions), []);
    }
  }

  /** With as many sessions as slots, which is how the source sizes the ring, the corrected
      remainder is not enough: when all sessions are back, none can be handed out. */
  lemma {:induction false} FullRingReadsEmpty(p: Pool, ids: seq<nat>, last: nat)
    requires Represents(p.ring, ids) && Partition(ids, p.held, |p.ring.slots|) && p.held == multiset{last}
    ensures Legal(p, Release(last))
    ensures var p' := PoolStep(p, Release(last)).0; p'.held == multiset{} && PoolStep(p', Acquire).1 == NoSession
  {
    var n := |p.ring.slots|;
    AccountIsPartition(ids, p.held, n);
    assert |multiset(ids) + p.held| == |multiset(Upto(n))| && |multiset(ids)| == |ids|;
    AddAppends(p.ring, ids, last);
    hide Represents, Partition;
    var p' := PoolStep(p, Release(last)).0;
    EmptyIffHeadIsRear(p'.ring, []);
  }

  /** The ring after so many allocations. */
  function TakeMany(q: Ring, k: nat): (r: Ring)
    requires WellFormed(q)
    ensures WellFormed(r)
  {
    if k == 0 then q else Take(TakeMany(q, k - 1)).0
  }

  lemma {:induction false} TakeManyDrops(q: Ring, ids: seq<nat>, k: nat)
    requires Represents(q, ids) && k <= |ids|
    ensures Represents(TakeMany(q, k), ids[k..])
  {
    if k == 0 {
      assert ids[0..] == ids;
    } else {
      TakeManyDrops(q, ids, k - 1);
      TakeRemovesOldest(TakeMany(q, k - 1), ids[k - 1..]);
      assert ids[k - 1..][1..] == ids[k..];
    }
  }

  /** A session given back twice by one event is queued twice, behind whatever is queued:
      the list still works as a queue, and hands that session to two clients in a row. */
  lemma {:induction false} ReleasedTwiceGrantedTwice(q: Ring, ids: seq<nat>, id: nat)
    requires Represents(q, ids) && |ids| + 2 < |q.slots|
    ensures Represents(Add(Add(q, id), id), ids + [id, id])
    ensures var q' := TakeMany(Add(Add(q, id), id), |ids|);
      Take(q').1 == Granted(id) && Take(Take(q').0).1 == Granted(id)
  {
    AddAppends(q, ids, id);
    AddAppends(Add(q, id), ids + [id], id);
    var ids' := ids + [id, id];
    assert ids + [id] + [id] == ids';
    var q' := Add(Add(q, id), id);
    TakeManyDrops(q', ids', |ids|);
    TakeManyDrops(q', ids', |ids| + 1);
    hide Represents;
    assert ids'[|ids|..] == [id, id] && ids'[|ids| + 1..] == [id];
    TakeRemovesOldest(TakeMany(q', |ids|), [id, id]);
    TakeRemovesOldest(TakeMany(q', |ids| + 1), [id]);
  }

  /** A ring holds one list only. */
  lemma {:induction false} RepresentsOne(q: Ring, ids: seq<nat>, ids': seq<nat>)
    requires Represents(q, ids) && Represents(q, ids')
    ensures ids == ids'
  {
    ModOnce(q.head + |ids|, |q.slots|);
    ModOnce(q.head + |ids'|, |q.slots|);
    forall i | 0 <= i < |ids| ensures ids[i] == ids'[i] {
      assert q.slots[(q.head + 1 + i) % |q.slots|] == ids[i];
    }
  }

  // ----- what the filling loop leaves behind

  /** What slot k holds after n sessions have been loaded: the last session written to it,
      or what was in memory. */
  function Held(memory: seq<nat>, n: nat, k: nat): nat
    requires k < |memory|
  {
    var r := n % |memory|;
    if k < r then n - r + k else if n >= |memory| then n - r - |memory| + k else memory[k]
  }

  lemma {:induction false} LoadedSlots(memory: seq<nat>, n: nat)
    requires memory != []
    ensures Loaded(memory, n).rear == n % |memory|
    ensures forall k :: 0 <= k < |memory| ==> Loaded(memory, n).slots[k] == Held(memory, n, k)
  {
    var s := |memory|;
    if n == 0 {
      ModOnce(0, s);
    } else {
      LoadedSlots(memory, n - 1);
      AdvanceOne(n - 1, s);
      ModOnce((n - 1) % s + 1, s);
      if n - 1 < s { ModOnce(n - 1, s); }
    }
  }

  lemma {:induction false} LoadedReadsEmpty(memory: seq<nat>)
    requires memory != []
    ensures Loaded(memory, |memory|).head == Loaded(memory, |memory|).rear
  {
    LoadedSlots(memory, |memory|);
    ModOnce(|memory|, |memory|);
    hide Loaded, Held;
  }

  /** As the source sizes the ring, the loop fills every slot and wraps rear to head. */
  lemma {:induction false} LoadedFull(memory: seq<nat>)
    requires memory != []
    ensures Loaded(memory, |memory|) == Ring(seq(|memory|, i => i), 0, 0)
  {
    LoadedSlots(memory, |memory|);
  }

  /** The list the ring holds after loading: without the first session of the last round,
      and with what was in the slot where the next one would go. */
  function LoadedIds(memory: seq<nat>, n: nat): (ids: seq<nat>)
    requires memory != []
    ensures |ids| == n % |memory|
  {
    var r := n % |memory|;
    seq(r, i requires 0 <= i < r => Held(memory, n, i + 1))
  }

  lemma {:induction false} LoadedRepresents(memory: seq<nat>, n: nat)
    requires memory != []
    ensures Represents(Loaded(memory, n), LoadedIds(memory, n))
    ensures Take(Loaded(memory, n)).1 == NoSession <==> n % |memory| == 0
  {
    LoadedSlots(memory, n);
    var s := |memory|;
    var ids := LoadedIds(memory, n);
    ModOnce(|ids|, s);
    forall i | 0 <= i < |ids| ensures Loaded(memory, n).slots[(0 + 1 + i) % s] == ids[i] {
      ModOnce(1 + i, s);
    }
  }

  /** On a ring with slots to spare: all sessions but the first, and then what was in memory. */
  lemma {:induction false} LoadedWithRoom(memory: seq<nat>, n: nat)
    requires 0 < n < |memory|
    ensures |LoadedIds(memory, n)| == n && LoadedIds(memory, n)[n - 1] == memory[n]
    ensures forall i :: 0 <= i < n - 1 ==> LoadedIds(memory, n)[i] == i + 1
  {
    ModOnce(n, |memory|);
  }

  /** Loading makes a full free list exactly when there is nothing to load, or the ring has
      a slot to spare and that slot happened to name the first session already. */
  lemma {:induction false} LoadedIsFreeListIff(memory: seq<nat>, n: nat)
    requires memory != []
    ensures (exists ids :: Represents(Loaded(memory, n), ids) && Partition(ids, multiset{}, n)) <==>
      n == 0 || (n < |memory| && memory[n] == 0)
  {
    var q := Loaded(memory, n);
    var ids := LoadedIds(memory, n);
    LoadedRepresents(memory, n);
    LoadedPartitionsIff(memory, n);
    forall other | Represents(q, other) ensures other == ids {
      RepresentsOne(q, ids, other);
    }
    hide Represents, Partition, Loaded, LoadedIds;
  }

  lemma {:induction false} LoadedPartitionsIff(memory: seq<nat>, n: nat)
    requires memory != []
    ensures Partition(LoadedIds(memory, n), multiset{}, n) <==> n == 0 || (n < |memory| && memory[n] == 0)
  {
    var ids := LoadedIds(memory, n);
    if n == 0 {
      ModOnce(0, |memory|);
      assert ids == [];
    } else if n >= |memory| {
      if Partition(ids, multiset{}, n) { PartitionSize(ids, n); }
    } else {
      LoadedWithRoomPartitionsIff(memory, n);
      hide Partition;
    }
  }

  lemma {:induction false} PartitionSize(ids: seq<nat>, n: nat)
    requires Partition(ids, multiset{}, n)
    ensures |ids| == n
  {
    AccountIsPartition(ids, multiset{}, n);
    assert |multiset(ids)| == |ids| && |multiset(Upto(n))| == n;
    hide Partition;
  }

  lemma {:induction false} LoadedWithRoomPartitionsIff(memory: seq<nat>, n: nat)
    requires 0 < n < |memory|
    ensures Partition(LoadedIds(memory, n), multiset{}, n) <==> memory[n] == 0
  {
    var ids := LoadedIds(memory, n);
    if memory[n] == 0 {
      forall id: nat | id < n ensures multiset(ids)[id] == 1 {
        LoadedCounts(memory, n, id);
      }
      forall id | id in ids ensures id < n {
        LoadedCounts(memory, n, id);
        assert id in multiset(ids);
      }
    } else {
      LoadedCounts(memory, n, 0);
    }
  }

  /** The loaded list: every session but the first, and what was in memory. */
  lemma {:induction false} LoadedCounts(memory: seq<nat>, n: nat, id: nat)
    requires 0 < n < |memory|
    ensures multiset(LoadedIds(memory, n))[id] == (if 0 < id < n then 1 else 0) + (if id == memory[n] then 1 else 0)
  {
    var tail := Upto(n)[1..];
    LoadedShape(memory, n);
    hide LoadedIds, Upto;
    UptoCounts(n, id);
    CountInFront(0, tail, id);
    CountBehind(tail, memory[n], id);
  }

  lemma {:induction false} LoadedShape(memory: seq<nat>, n: nat)
    requires 0 < n < |memory|
    ensures Upto(n) == [0] + Upto(n)[1..] && LoadedIds(memory, n) == Upto(n)[1..] + [memory[n]]
  {
    LoadedWithRoom(memory, n);
    hide LoadedIds, Upto;
    assert Upto(n)[0] == 0;
  }

  /** What the loaded ring makes of itself, with slots to spare and the corrected remainder,
      whatever was in memory: in every run, what is queued and what is held is what was
      loaded, and allocation fails exactly when all of that is held. */
  lemma {:induction false} LoadedGrants(memory: seq<nat>, n: nat, ops: seq<Op>, p: Pool)
    requires memory != [] && PoolRun(Pool(Loaded(memory, n), multiset{}), ops, p)
    ensures WellFormed(p.ring)
    ensures PoolStep(p, Acquire).1.NoSession? <==> p.held == multiset(LoadedIds(memory, n))
    ensures PoolStep(p, Acquire).1.Granted? ==> PoolStep(p, Acquire).1.id in multiset(LoadedIds(memory, n)) - p.held
    ensures p.held <= multiset(LoadedIds(memory, n))
  {
    var ids := LoadedIds(memory, n);
    LoadedRepresents(memory, n);
    assert |multiset(ids)| == |ids| && Accounted(ids, multiset{}, multiset(ids));
    var ids' := RunKeepsAccount(Pool(Loaded(memory, n), multiset{}), ids, multiset(ids), ops, p);
    hide PoolRun, Loaded, LoadedIds;
    assert p.held <= multiset(ids') + p.held;
  }

  /** So unless the memory named it, no run ever hands out the first session. */
  lemma {:induction false} LoadedNeverGrantsFirst(memory: seq<nat>, n: nat, ops: seq<Op>, p: Pool)
    requires 0 < n < |memory| && memory[n] != 0
    requires PoolRun(Pool(Loaded(memory, n), multiset{}), ops, p)
    ensures WellFormed(p.ring) && 0 !in p.held && PoolStep(p, Acquire).1 != Granted(0)
  {
    LoadedGrants(memory, n, ops, p);
    LoadedWithRoom(memory, n);
    hide PoolRun, Loaded, LoadedIds, PoolStep;
    assert 0 !in LoadedIds(memory, n);
  }

  /** So many allocations in a row. */
  function Acquires(k: nat): (ops: seq<Op>)
    ensures |ops| == k
  {
    if k == 0 then [] else [Acquire] + Acquires(k - 1)
  }

  lemma {:induction false} AcquireAll(p: Pool, ids: seq<nat>) returns (p': Pool)
    requires Represents(p.ring, ids)
    ensures PoolRun(p, Acquires(|ids|), p') && p'.held == p.held + multiset(ids)
    decreases |ids|
  {
    if ids == [] {
      p' := p;
    } else {
      EmptyIffHeadIsRear(p.ring, ids);
      TakeRemovesOldest(p.ring, ids);
      hide Represents;
      p' := AcquireAll(PoolStep(p, Acquire).0, ids[1..]);
      assert Acquires(|ids|)[1..] == Acquires(|ids| - 1);
      HeldMore(p.held, ids);
    }
  }

  lemma {:induction false} HeldMore(held: multiset<nat>, ids: seq<nat>)
    requires ids != []
    ensures held + multiset{ids[0]} + multiset(ids[1..]) == held + multiset(ids)
  {
    assert ids == [ids[0]] + ids[1..];
  }

  /** What n allocations come to: every session but the first is held once, and what was in
      memory once more. So a session the memory names is held by two clients, and memory that
      names no session is handed out as if it did. */
  lemma {:induction false} LoadedGrantsMemory(memory: seq<nat>, n: nat) returns (p: Pool)
    requires 0 < n < |memory|
    ensures PoolRun(Pool(Loaded(memory, n), multiset{}), Acquires(n), p)
    ensures forall id: nat :: p.held[id] == (if 0 < id < n then 1 else 0) + (if id == memory[n] then 1 else 0)
  {
    var ids := LoadedIds(memory, n);
    LoadedRepresents(memory, n);
    assert |ids| == n by { LoadedWithRoom(memory, n); }
    hide PoolRun, Represents, Loaded, LoadedIds;
    p := AcquireAll(Pool(Loaded(memory, n), multiset{}), ids);
    assert p.held == multiset(ids);
    forall id: nat ensures p.held[id] == (if 0 < id < n then 1 else 0) + (if id == memory[n] then 1 else 0) {
      LoadedCounts(memory, n, id);
    }
  }

  // ----- the queue as the program holds it

  class UnusedSessionQueue {
    const unusedSessions: array<nat>
    var head: nat
    var rear: nat

    ghost predicate Valid()
      reads this
    {
      head < unusedSessions.Length && rear < unusedSessions.Length
    }

    ghost function View(): (q: Ring)
      requires Valid()
      reads this, unusedSessions
      ensures WellFormed(q)
    {
      Ring(unusedSessions[..], head, rear)
    }

    /** initialize_unused_session: writes a slot, then advances rear. */
    constructor (limit: nat)
      requires limit > 0
      ensures Valid() && fresh(unusedSessions) && View() == Ring(seq(limit, i => i), 0, 0)
    {
      unusedSessions := new nat[limit];
      head, rear := 0, 0;
      new;
      ghost var memory := unusedSessions[..];
      for i := 0 to limit
        invariant Valid() && View() == Loaded(memory, i)
      {
        unusedSessions[rear] := i;
        rear := (rear + 1) % limit;
      }
      LoadedFull(memory);
    }

    method Get() returns (grant: Grant)
      requires Valid()
      modifies this
      ensures Valid() && (View(), grant) == GetNewSession(old(View()))
    {
      if head == rear {
        return NoSession;
      }
      if head == 0 {
        return DivisionByZero;
      }
      head := (head + 1) % head;
      return Granted(unusedSessions[head]);
    }

    method AddUnusedSession(id: nat)
      requires Valid()
      modifies this, unusedSessions
      ensures Valid() && View() == Add(old(View()), id)
    {
      rear := (rear + 1) % unusedSessions.Length;
      unusedSessions[rear] := id;
    }
  }
}
