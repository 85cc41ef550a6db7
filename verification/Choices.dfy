/** What a selection comes to, said of the servers alone: which servers are offered, which
    cursors the search starts from, and which servers each algorithm ends at. */
module Choices {
  import opened Modular
  import opened Relay
  import opened UriHash
  import opened Registry
  import opened Selection
  import opened Fairness

  // ----- what is offered

  /** Some eligible server is not a standby. */
  predicate SomePlain(v: Servers, strict: bool)
    requires v.count <= |v.slots|
  {
    exists i :: 0 <= i < v.count && Eligible(strict, v.slots[i]) && !v.slots[i].standby
  }

  predicate SomeEligible(v: Servers, strict: bool)
    requires v.count <= |v.slots|
  {
    exists i :: 0 <= i < v.count && Eligible(strict, v.slots[i])
  }

  /** The list holds, in order, the eligible servers, standbys only if there is nothing else. */
  ghost predicate ListsExactly(v: Servers, strict: bool, list: seq<nat>)
    requires v.count <= |v.slots|
  {
    && (forall i: nat :: i in list <==>
          i < v.count && Eligible(strict, v.slots[i]) && (v.slots[i].standby ==> !SomePlain(v, strict)))
    && (forall j, k :: 0 <= j < k < |list| ==> list[j] < list[k])
  }

  lemma {:induction false} ScansExactly(v: Servers, strict: bool)
    requires v.count <= |v.slots|
    ensures ListsExactly(v, strict, ScanWithFallback(v, strict))
    ensures Scan(v.slots, v.count, strict, false) != [] <==> SomePlain(v, strict)
    ensures ScanWithFallback(v, strict) != [] <==> SomeEligible(v, strict)
  {
    FallbackSound(v, strict);
    ScanIncreases(v.slots, v.count, strict, false);
    ScanIncreases(v.slots, v.count, strict, true);
    var plain := Scan(v.slots, v.count, strict, false);
    var list := ScanWithFallback(v, strict);
    hide Scan, Eligible;
    assert plain == [] ==> list == Scan(v.slots, v.count, strict, true);
    hide ScanWithFallback;
    assert SomePlain(v, strict) <==> exists i :: 0 <= i < v.count && Passes(strict, false, v.slots[i]);
  }

  /** The clone cursor is on a standby that may be used, while members that are no standbys may
      be used: the case in which the member cursor is reset for the sake of the clone. */
  predicate ResetForClone(b: Balancer)
    requires RegistryOk(b)
  {
    && b.cloneMode == CloneOn && SomeEligible(b.clones, b.strict) && SomePlain(b.members, b.strict)
    && Eligible(b.strict, b.clones.slots[b.nextClone]) && b.clones.slots[b.nextClone].standby
  }

  /** What a selection is offered, and where it starts. */
  ghost predicate Offers(b: Balancer, k: Choice)
    requires RegistryOk(b)
  {
    OffersMembers(b, k) && OffersClones(b, k)
  }

  ghost predicate OffersMembers(b: Balancer, k: Choice)
    requires RegistryOk(b)
  {
    && ListsExactly(b.members, b.strict, k.members) && k.members != []
    && (k.usingStandby <==> !SomePlain(b.members, b.strict))
    && k.nextMember == (if b.nextMember in k.members && !ResetForClone(b) then b.nextMember else k.members[0])
  }

  ghost predicate OffersClones(b: Balancer, k: Choice)
    requires RegistryOk(b)
  {
    && (if b.cloneMode == CloneOn then ListsExactly(b.clones, b.strict, k.clones) else k.clones == [])
    && (k.useClone <==> b.cloneMode == CloneOn && SomeEligible(b.clones, b.strict))
    && (k.useClone <==> k.clones != [])
    && k.nextClone == (if k.useClone && !Eligible(b.strict, b.clones.slots[b.nextClone]) then k.clones[0] else b.nextClone)
  }

  lemma {:induction false} ResetIsClobber(b: Balancer)
    requires RegistryOk(b)
    ensures ResetForClone(b) <==> ClobbersCursor(b)
  {
    ScansExactly(b.members, b.strict);
    ScansExactly(b.clones, b.strict);
    hide Scan, ScanWithFallback, HashOk, ListsExactly, SomePlain, SomeEligible;
  }

  /** The member cursor is kept exactly when it is listed. */
  lemma {:induction false} RepairIsExact(b: Balancer)
    requires RegistryOk(b) && ScanWithFallback(b.members, b.strict) != []
    ensures var list := ScanWithFallback(b.members, b.strict);
      RepairedMember(b) == if b.nextMember in list then b.nextMember else list[0]
  {
    FallbackSound(b.members, b.strict);
    hide Scan, ScanWithFallback, HashOk;
  }

  /** Exactly what a selection is offered: the eligible members, standbys only if there is
      nothing else; clones exactly while cloning is on, the same way; the cursors kept when
      they can be, with the reset of the member cursor for the clone. */
  lemma {:induction false} AvailableExact(b: Balancer)
    requires RegistryOk(b)
    ensures Available(b).Some? <==> SomeEligible(b.members, b.strict)
    ensures Available(b).Some? ==> Offers(b, Available(b).value)
  {
    ScansExactly(b.members, b.strict);
    if Available(b).Some? {
      MembersOffered(b);
      ClonesOfferedExactly(b);
    }
    hide Scan, ScanWithFallback, RegistryOk, OffersMembers, OffersClones, ListsExactly, SomePlain, SomeEligible;
  }

  lemma {:induction false} MembersOffered(b: Balancer)
    requires RegistryOk(b) && Available(b).Some?
    ensures OffersMembers(b, Available(b).value)
  {
    ScansExactly(b.members, b.strict);
    ResetIsClobber(b);
    RepairIsExact(b);
    hide Scan, ScanWithFallback, HashOk, SlotsOk, ListsExactly, SomePlain, ResetForClone, ClobbersCursor, RepairedMember, RepairedClone;
  }

  lemma {:induction false} ClonesOfferedExactly(b: Balancer)
    requires RegistryOk(b) && Available(b).Some?
    ensures OffersClones(b, Available(b).value)
  {
    ScansExactly(b.clones, b.strict);
    hide Scan, ScanWithFallback, HashOk, SlotsOk, ListsExactly, SomeEligible, ClobbersCursor, RepairedMember, Eligible;
  }

  // ----- what is picked

  /** The server after x in the list, around its end. */
  function Follower(list: seq<nat>, x: nat): nat
    requires x in list
  {
    list[Around(Position(list, x), |list|)]
  }

  /** Where the search among the clones starts: after the cursor, when that is listed. */
  function CloneStart(a: Choice): nat {
    if a.nextClone in a.clones then Follower(a.clones, a.nextClone) else a.nextClone
  }

  /** best has the smallest key of the listed servers and the start: the start itself when
      nothing is smaller, otherwise the first of the smallest. */
  predicate LeastBy(keys: seq<real>, list: seq<nat>, start: nat, best: nat) {
    && start < |keys| && best < |keys| && keys[best] <= keys[start]
    && (forall j :: 0 <= j < |list| ==> list[j] < |keys| && keys[best] <= keys[list[j]])
    && (best != start ==> keys[best] < keys[start] && FirstAmong(keys, list, best))
  }

  predicate FirstAmong(keys: seq<real>, list: seq<nat>, best: nat)
    requires best < |keys| && forall j :: 0 <= j < |list| ==> list[j] < |keys|
  {
    exists j :: 0 <= j < |list| && list[j] == best && forall i :: 0 <= i < j ==> keys[list[i]] > keys[best]
  }

  /** Connections of every server, and its load with so much for every connection. */
  function ConnectionKeys(slots: seq<Server>): seq<real> {
    seq(|slots|, i requires 0 <= i < |slots| => slots[i].c as real)
  }

  function LoadKeys(slots: seq<Server>, weight: real): seq<real> {
    seq(|slots|, i requires 0 <= i < |slots| => slots[i].load + weight * slots[i].c as real)
  }

  lemma {:induction false} LeastIsLeastBy(slots: seq<Server>, list: seq<nat>, start: nat, key: Server -> real, keys: seq<real>)
    requires start < |slots| && Listed(slots, list) && |keys| == |slots|
    requires forall i :: 0 <= i < |slots| ==> keys[i] == key(slots[i])
    ensures LeastBy(keys, list, start, Least(slots, list, start, key))
  {
    LeastIsMinimum(slots, list, start, key);
    var best := Least(slots, list, start, key);
    if best != start { LeastIsFirst(slots, list, start, key, keys); }
    hide Least;
  }

  lemma {:induction false} LeastIsFirst(slots: seq<Server>, list: seq<nat>, start: nat, key: Server -> real, keys: seq<real>)
    requires start < |slots| && Listed(slots, list) && |keys| == |slots|
    requires forall i :: 0 <= i < |slots| ==> keys[i] == key(slots[i])
    ensures var best := Least(slots, list, start, key);
      best == start || exists j :: 0 <= j < |list| && list[j] == best && forall i :: 0 <= i < j ==> keys[list[i]] > keys[best]
  {
    if list != [] {
      var n := |list| - 1;
      var init := list[..n];
      LeastIsFirst(slots, init, start, key, keys);
      LeastIsMinimum(slots, init, start, key);
      var before := Least(slots, init, start, key);
      var best := Least(slots, list, start, key);
      if best == before {
        if best != start {
          var j :| 0 <= j < |init| && init[j] == before && forall i :: 0 <= i < j ==> keys[init[i]] > keys[before];
          assert list[j] == best;
        }
      } else {
        assert list[n] == best;
        assert forall i :: 0 <= i < n ==> list[i] == init[i];
      }
    }
  }

  /** Least connections: from the round-robin successor of the cursor on. */
  predicate LcMember(b: Balancer, a: Choice, m: nat) {
    a.nextMember in a.members && LeastBy(ConnectionKeys(b.members.slots), a.members, Follower(a.members, a.nextMember), m)
  }

  predicate LcClone(b: Balancer, a: Choice, c: nat) {
    LeastBy(ConnectionKeys(b.clones.slots), a.clones, CloneStart(a), c)
  }

  /** The bucket of the path is bound to a member that may be used. */
  predicate Hit(b: Balancer, a: Choice, path: seq<Byte>)
    requires RegistryOk(b)
  {
    var m := b.table[Bucket(path)];
    m != HASH_VAL_FREE && Eligible(b.strict, b.members.slots[m]) && (b.members.slots[m].standby ==> a.usingStandby)
  }

  /** The member each algorithm picks of what is offered. */
  predicate PicksMember(b: Balancer, req: Request, a: Choice, m: nat)
    requires RegistryOk(b) && a.nextMember in a.members
  {
    match b.algorithm
    case RoundRobin => m == Follower(a.members, a.nextMember)
    case LeastConnections => LcMember(b, a, m)
    case LeastLoad => LeastBy(LoadKeys(b.members.slots, b.weight), a.members, a.nextMember, m)
    case Static => if req.Resource? then m == a.members[Bucket(req.path) % |a.members|] else LcMember(b, a, m)
    case Hash => if req.Resource? && Hit(b, a, req.path) then m == b.table[Bucket(req.path)] else LcMember(b, a, m)
  }

  /** And the clone, when there is one. */
  predicate PicksClone(b: Balancer, req: Request, a: Choice, c: nat)
    requires RegistryOk(b) && a.clones != []
  {
    match b.algorithm
    case RoundRobin => c == CloneStart(a)
    case LeastConnections => LcClone(b, a, c)
    case LeastLoad => LeastBy(LoadKeys(b.clones.slots, b.weight), a.clones, a.nextClone, c)
    case Static => if req.Resource? then c == a.clones[Bucket(req.path) % |a.clones|] else LcClone(b, a, c)
    case Hash => if req.Resource? && Hit(b, a, req.path) then c == a.clones[Bucket(req.path) % |a.clones|] else LcClone(b, a, c)
  }

  lemma {:induction false} SuccessorIsFollower(slots: seq<Server>, list: seq<nat>, x: nat)
    requires Listed(slots, list) && x in list
    ensures (forall i :: i in list ==> i < |slots|) && Successor(slots, list, x) == Follower(list, x)
  {
    var i := Position(list, x);
    ModOnce(i + 1, |list|);
  }

  lemma {:induction false} RrPicks(b: Balancer, a: Choice)
    requires Grounded(b, a)
    ensures var r := SetRr(b, a);
      r == a.(nextMember := Follower(a.members, a.nextMember), nextClone := if a.useClone then CloneStart(a) else a.nextClone)
  {
    SuccessorIsFollower(b.members.slots, a.members, a.nextMember);
    if a.nextClone in a.clones { SuccessorIsFollower(b.clones.slots, a.clones, a.nextClone); }
  }

  lemma {:induction false} LcPicks(b: Balancer, a: Choice)
    requires Grounded(b, a)
    ensures var r := SetLc(b, a);
      && r == a.(nextMember := r.nextMember, nextClone := r.nextClone)
      && LcMember(b, a, r.nextMember) && (if a.useClone then LcClone(b, a, r.nextClone) else r.nextClone == a.nextClone)
  {
    RrPicks(b, a);
    RrStaysGrounded(b, a);
    var r := SetRr(b, a);
    hide SetRr, Grounded, LeastBy, Least;
    LeastIsLeastBy(b.members.slots, a.members, r.nextMember, Connections, ConnectionKeys(b.members.slots));
    if a.useClone {
      LeastIsLeastBy(b.clones.slots, a.clones, r.nextClone, Connections, ConnectionKeys(b.clones.slots));
    }
  }

  lemma {:induction false} LlPicks(b: Balancer, a: Choice)
    requires Grounded(b, a)
    ensures var r := SetLeast(b, a, WeightedLoad(b.weight));
      && r == a.(nextMember := r.nextMember, nextClone := r.nextClone)
      && LeastBy(LoadKeys(b.members.slots, b.weight), a.members, a.nextMember, r.nextMember)
      && (if a.useClone then LeastBy(LoadKeys(b.clones.slots, b.weight), a.clones, a.nextClone, r.nextClone)
          else r.nextClone == a.nextClone)
  {
    LeastIsLeastBy(b.members.slots, a.members, a.nextMember, WeightedLoad(b.weight), LoadKeys(b.members.slots, b.weight));
    if a.useClone {
      LeastIsLeastBy(b.clones.slots, a.clones, a.nextClone, WeightedLoad(b.weight), LoadKeys(b.clones.slots, b.weight));
    }
    hide LeastBy, Least;
  }

  lemma {:induction false} HashPicks(b: Balancer, req: Request)
    requires RegistryOk(b) && Available(b).Some? && req != Undefined
    ensures Grounded(b, Available(b).value)
    ensures var a, k := Available(b).value, SetHash(b, Available(b).value, req).1;
      && k == a.(nextMember := k.nextMember, nextClone := k.nextClone)
      && (if req.Resource? && Hit(b, a, req.path)
          then k.nextMember == b.table[Bucket(req.path)] &&
               k.nextClone == (if a.useClone then a.clones[Bucket(req.path) % |a.clones|] else a.nextClone)
          else LcMember(b, a, k.nextMember) && (if a.useClone then LcClone(b, a, k.nextClone) else k.nextClone == a.nextClone))
  {
    AvailableIsGrounded(b);
    var a := Available(b).value;
    LcPicks(b, a);
    if req.Resource? && Bound(b, a, Bucket(req.path)).Some? { BoundIsAvailable(b, Bucket(req.path)); }
    hide Available, SetLc, Bucket, LcMember, LcClone, SlotsOk;
  }

  /** k is what a picks turn into. */
  predicate Picked(b: Balancer, req: Request, a: Choice, k: Choice)
    requires RegistryOk(b)
  {
    && a.nextMember in a.members && (a.useClone <==> a.clones != [])
    && k == a.(nextMember := k.nextMember, nextClone := k.nextClone) && PicksMember(b, req, a, k.nextMember)
    && (if a.useClone then PicksClone(b, req, a, k.nextClone) else k.nextClone == a.nextClone)
  }

  lemma {:induction false} RrPicked(b: Balancer, req: Request, a: Choice)
    requires RegistryOk(b) && Grounded(b, a) && b.algorithm == RoundRobin
    ensures Picked(b, req, a, SetRr(b, a))
  {
    RrPicks(b, a);
    hide RegistryOk, SetRr, Follower, Listed;
  }

  lemma {:induction false} LlPicked(b: Balancer, req: Request, a: Choice)
    requires RegistryOk(b) && Grounded(b, a) && b.algorithm == LeastLoad
    ensures Picked(b, req, a, SetLeast(b, a, WeightedLoad(b.weight)))
  {
    LlPicks(b, a);
    hide RegistryOk, SetLeast, LeastBy, Listed, LoadKeys;
  }

  lemma {:induction false} LcPicked(b: Balancer, req: Request, a: Choice)
    requires RegistryOk(b) && Grounded(b, a)
    requires b.algorithm == LeastConnections || (b.algorithm == Static && !req.Resource?)
    ensures Picked(b, req, a, SetLc(b, a))
  {
    LcPicks(b, a);
    hide RegistryOk, SetLc, LcMember, LcClone, Listed;
  }

  lemma {:induction false} StaticPicked(b: Balancer, req: Request, a: Choice)
    requires RegistryOk(b) && Grounded(b, a) && b.algorithm == Static && req.Resource?
    ensures Picked(b, req, a, SetStatic(b, a, req))
  {
    hide RegistryOk, Bucket, Listed;
  }

  lemma {:induction false} HashPicked(b: Balancer, req: Request)
    requires RegistryOk(b) && Available(b).Some? && req != Undefined && b.algorithm == Hash
    ensures Grounded(b, Available(b).value)
    ensures Picked(b, req, Available(b).value, SetHash(b, Available(b).value, req).1)
  {
    HashPicks(b, req);
    hide RegistryOk, Available, SetHash, LcMember, LcClone, Hit, Listed, Bucket;
  }

  lemma {:induction false} AlgorithmPicks(b: Balancer, req: Request)
    requires RegistryOk(b) && Available(b).Some? && req != Undefined
    ensures Grounded(b, Available(b).value)
    ensures Picked(b, req, Available(b).value, RunAlgorithm(b, Available(b).value, req).1)
  {
    AvailableIsGrounded(b);
    var a := Available(b).value;
    hide RegistryOk, Available, Picked, Grounded, SetRr, SetLc, SetLeast, SetHash;
    match b.algorithm
    case RoundRobin => RrPicked(b, req, a);
    case LeastLoad => LlPicked(b, req, a);
    case LeastConnections => LcPicked(b, req, a);
    case Hash => HashPicked(b, req);
    case Static => if req.Resource? { StaticPicked(b, req, a); } else { LcPicked(b, req, a); }
  }

  /** Exactly what a selection picks, for every algorithm and every request: the member, the
      clone, and the cursors it leaves for the next one. */
  lemma {:induction false} ChooseExact(b: Balancer, req: Request)
    requires RegistryOk(b) && Available(b).Some? && req != Undefined
    ensures Choose(b, req).Some?
    ensures var r := Choose(b, req).value;
      && Picked(b, req, Available(b).value, r.k)
      && r.b.nextMember == r.k.nextMember && r.b.nextClone == r.k.nextClone
  {
    AlgorithmPicks(b, req);
    hide Available, RunAlgorithm, Picked, RegistryOk, Grounded;
  }

  /** Clients are mirrored exactly while cloning is on and some clone may be used. */
  lemma {:induction false} ClonesIff(b: Balancer, req: Request)
    requires RegistryOk(b) && req != Undefined && Choose(b, req).Some?
    ensures Choose(b, req).value.k.useClone <==> b.cloneMode == CloneOn && SomeEligible(b.clones, b.strict)
  {
    AvailableExact(b);
    assert Available(b).Some?;
    ChooseExact(b, req);
    hide Choose, Available, RegistryOk, OffersMembers, SomeEligible, PicksMember, PicksClone, ListsExactly;
  }
}
