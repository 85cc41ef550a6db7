/** Server selection: which servers are available, how a stale cursor is repaired, and how
    each of the five algorithms moves it. */
module Selection {
  import opened Relay
  import opened UriHash
  import opened Registry

  // ----- availability

  /** May take one more connection. */
  predicate Eligible(strict: bool, s: Server) {
    s.status == Enabled && s.c < s.maxc && (strict ==> s.eload <= 100)
  }

  /** verify_server: -1 for a server that may not be used, 1 for a standby, 0 otherwise. */
  function Verify(strict: bool, s: Server): (verdict: int)
    ensures verdict == if !Eligible(strict, s) then -1 else if s.standby then 1 else 0
  {
    if strict && (s.status != Enabled || s.eload > 100 || s.c >= s.maxc) then -1
    else if s.status != Enabled || s.c >= s.maxc then -1
    else if s.standby then 1
    else 0
  }

  predicate Passes(strict: bool, standbys: bool, s: Server) {
    Eligible(strict, s) && (standbys || !s.standby)
  }

  /** One scan of get_available_servers over the first n slots. */
  function Scan(slots: seq<Server>, n: nat, strict: bool, standbys: bool): (list: seq<nat>)
    requires n <= |slots|
    ensures forall i: nat :: i in list <==> i < n && Passes(strict, standbys, slots[i])
  {
    if n == 0 then []
    else
      var rest := Scan(slots, n - 1, strict, standbys);
      if Passes(strict, standbys, slots[n - 1]) then rest + [n - 1] else rest
  }

  lemma {:induction false} ScanIncreases(slots: seq<Server>, n: nat, strict: bool, standbys: bool)
    requires n <= |slots|
    ensures forall j, k :: 0 <= j < k < |Scan(slots, n, strict, standbys)| ==>
      Scan(slots, n, strict, standbys)[j] < Scan(slots, n, strict, standbys)[k]
  {
    if n > 0 {
      ScanIncreases(slots, n - 1, strict, standbys);
      var rest := Scan(slots, n - 1, strict, standbys);
      forall j | 0 <= j < |rest| ensures rest[j] < n - 1 {
        assert rest[j] in rest;
      }
    }
  }

  /** Two scans: standbys are considered only when nothing else is available. */
  function ScanWithFallback(v: Servers, strict: bool): seq<nat>
    requires v.count <= |v.slots|
  {
    var list := Scan(v.slots, v.count, strict, false);
    if list == [] then Scan(v.slots, v.count, strict, true) else list
  }

  /** What get_available_servers leaves in the global variables. */
  datatype Choice = Choice(members: seq<nat>, usingStandby: bool, clones: seq<nat>, useClone: bool,
                           nextMember: nat, nextClone: nat)

  /** The branch that repairs the clone cursor by resetting the member cursor. */
  predicate ClobbersCursor(b: Balancer)
    requires RegistryOk(b)
  {
    && b.cloneMode == CloneOn && ScanWithFallback(b.clones, b.strict) != []
    && Verify(b.strict, b.clones.slots[b.nextClone]) == 1
    && Scan(b.members.slots, b.members.count, b.strict, false) != []
  }

  /** The member cursor after its own repair. */
  function RepairedMember(b: Balancer): nat
    requires RegistryOk(b) && ScanWithFallback(b.members, b.strict) != []
  {
    var list := ScanWithFallback(b.members, b.strict);
    var standbys := Scan(b.members.slots, b.members.count, b.strict, false) == [];
    var verdict := Verify(b.strict, b.members.slots[b.nextMember]);
    if verdict == -1 || (verdict == 1 && !standbys) then list[0] else b.nextMember
  }

  function RepairedClone(b: Balancer): nat
    requires RegistryOk(b) && ScanWithFallback(b.clones, b.strict) != []
  {
    if Verify(b.strict, b.clones.slots[b.nextClone]) == -1
    then ScanWithFallback(b.clones, b.strict)[0] else b.nextClone
  }

  /** get_available_servers: None when no member may be used. */
  function Available(b: Balancer): Option<Choice>
    requires RegistryOk(b)
  {
    var list := ScanWithFallback(b.members, b.strict);
    var standbys := Scan(b.members.slots, b.members.count, b.strict, false) == [];
    var clones := if b.cloneMode == CloneOn then ScanWithFallback(b.clones, b.strict) else [];
    if list == [] then None
    else
      Some(Choice(list, standbys, clones, clones != [],
                  if ClobbersCursor(b) then list[0] else RepairedMember(b),
                  if clones != [] then RepairedClone(b) else b.nextClone))
  }

  /** What two scans find: the eligible servers, without the standbys unless there are only
      standbys. */
  lemma {:induction false} FallbackSound(v: Servers, strict: bool)
    requires v.count <= |v.slots|
    ensures var standbys := Scan(v.slots, v.count, strict, false) == [];
      && (forall i: nat :: i in ScanWithFallback(v, strict) <==> i < v.count && Passes(strict, standbys, v.slots[i]))
      && (standbys <==> forall i :: 0 <= i < v.count ==> !Passes(strict, false, v.slots[i]))
      && (ScanWithFallback(v, strict) == [] <==> forall i :: 0 <= i < v.count ==> !Eligible(strict, v.slots[i]))
      && (ScanWithFallback(v, strict) != [] ==> ScanWithFallback(v, strict)[0] in ScanWithFallback(v, strict))
  {
    var first := Scan(v.slots, v.count, strict, false);
    var second := Scan(v.slots, v.count, strict, true);
    assert first != [] ==> first[0] in first;
    assert second != [] ==> second[0] in second;
    assert forall i: nat :: i in first ==> i in second;
    assert forall i :: 0 <= i < v.count && Eligible(strict, v.slots[i]) ==> i in second;
    assert forall i :: 0 <= i < v.count && Passes(strict, false, v.slots[i]) ==> i in first;
  }

  /** A stale cursor names a free slot or one past the count; both fail the check and are
      repaired, so the member cursor ends up in the list. */
  lemma {:induction false} RepairedMemberIsListed(b: Balancer)
    requires RegistryOk(b) && ScanWithFallback(b.members, b.strict) != []
    ensures RepairedMember(b) in ScanWithFallback(b.members, b.strict)
  {
    FallbackSound(b.members, b.strict);
    hide Scan, ScanWithFallback;
  }

  lemma {:induction false} RepairedCloneIsEligible(b: Balancer)
    requires RegistryOk(b) && ScanWithFallback(b.clones, b.strict) != []
    ensures RepairedClone(b) < b.clones.count && Eligible(b.strict, b.clones.slots[RepairedClone(b)])
  {
    FallbackSound(b.clones, b.strict);
    hide Scan, ScanWithFallback;
  }

  /** What a selection is offered. */
  ghost predicate Offer(b: Balancer, k: Choice) {
    && |b.members.slots| == MAXSERVERS && |b.clones.slots| == MAXSERVERS
    && b.members.count <= MAXSERVERS && b.clones.count <= MAXSERVERS
    && k.nextMember in k.members
    && (forall i: nat :: i in k.members <==> i < b.members.count && Passes(b.strict, k.usingStandby, b.members.slots[i]))
    && (k.usingStandby ==> forall i :: 0 <= i < b.members.count ==> !Passes(b.strict, false, b.members.slots[i]))
    && (k.useClone ==> k.nextClone < b.clones.count && Eligible(b.strict, b.clones.slots[k.nextClone]))
    && (forall i: nat :: i in k.clones ==> i < b.clones.count && Eligible(b.strict, b.clones.slots[i]))
    && (k.useClone <==> k.clones != []) && k.nextClone < MAXSERVERS
  }

  lemma {:induction false} CursorsRepaired(b: Balancer)
    requires RegistryOk(b) && Available(b).Some?
    ensures var k := Available(b).value;
      k.nextMember in k.members && k.nextClone < MAXSERVERS && k.members == ScanWithFallback(b.members, b.strict)
      && (k.useClone ==> k.nextClone < b.clones.count && Eligible(b.strict, b.clones.slots[k.nextClone]))
  {
    FallbackSound(b.members, b.strict);
    RepairedMemberIsListed(b);
    if ScanWithFallback(b.clones, b.strict) != [] { RepairedCloneIsEligible(b); }
    hide Scan, ScanWithFallback, RepairedMember, RepairedClone, ClobbersCursor, HashOk, Eligible, Passes;
  }

  /** Selection fails exactly when no member is eligible, and what it offers is right. */
  lemma {:induction false} AvailableSound(b: Balancer)
    requires RegistryOk(b)
    ensures Available(b) == None <==> forall i :: 0 <= i < b.members.count ==> !Eligible(b.strict, b.members.slots[i])
    ensures Available(b).Some? ==> Offer(b, Available(b).value)
  {
    FallbackSound(b.members, b.strict);
    if Available(b).Some? {
      CursorsRepaired(b);
      ClonesOffered(b);
      hide Scan, ScanWithFallback, RepairedMember, RepairedClone, ClobbersCursor, HashOk, Eligible;
    }
  }

  lemma {:induction false} ClonesOffered(b: Balancer)
    requires RegistryOk(b) && Available(b).Some?
    ensures var k := Available(b).value;
      (k.useClone <==> k.clones != []) &&
      forall i: nat :: i in k.clones ==> i < b.clones.count && Eligible(b.strict, b.clones.slots[i])
  {
    FallbackSound(b.clones, b.strict);
    hide Scan, ScanWithFallback, RepairedMember, RepairedClone, ClobbersCursor, HashOk;
  }

  // ----- the algorithms

  /** The position of x in list, or its length. */
  function Position(list: seq<nat>, x: nat): (i: nat)
    ensures i <= |list| && (i < |list| <==> x in list) && (i < |list| ==> list[i] == x)
    ensures x !in list[..i]
  {
    if list == [] then 0
    else if list[0] == x then 0
    else
      var i := 1 + Position(list[1..], x);
      assert list[..i] == [list[0]] + list[1..][..i - 1];
      i
  }

  /** The server after the cursor in the list; a cursor that is not in the list stays. */
  function Successor(slots: seq<Server>, list: seq<nat>, cursor: nat): nat
    requires forall i :: i in list ==> i < |slots|
  {
    var i := Position(list, cursor);
    if i < |list| then
      var j := (i + 1) % |list|;
      assert list[j] in list;
      slots[list[j]].id
    else cursor
  }

  /** Every entry of the list is a slot that carries its own index. */
  predicate Listed(slots: seq<Server>, list: seq<nat>) {
    forall j :: 0 <= j < |list| ==> list[j] < |slots| && slots[list[j]].id == list[j]
  }

  /** The scan for a smaller key, starting from the cursor: the first of the smallest. */
  function Least(slots: seq<Server>, list: seq<nat>, cursor: nat, key: Server -> real): (best: nat)
    requires cursor < |slots| && Listed(slots, list)
    ensures best < |slots|
  {
    if list == [] then cursor
    else
      var best := Least(slots, list[..|list| - 1], cursor, key);
      var candidate := slots[list[|list| - 1]];
      if key(candidate) < key(slots[best]) then candidate.id else best
  }

  /** Least picks a minimum of the key over the list and the cursor, and the cursor itself
      when nothing in the list is smaller. */
  lemma {:induction false} LeastIsMinimum(slots: seq<Server>, list: seq<nat>, cursor: nat, key: Server -> real)
    requires cursor < |slots| && Listed(slots, list)
    ensures var best := Least(slots, list, cursor, key);
      && (best == cursor || best in list)
      && key(slots[best]) <= key(slots[cursor])
      && (forall j :: 0 <= j < |list| ==> key(slots[best]) <= key(slots[list[j]]))
      && (key(slots[best]) < key(slots[cursor]) || best == cursor)
  {
    if list != [] {
      var init := list[..|list| - 1];
      LeastIsMinimum(slots, init, cursor, key);
      assert list == init + [list[|list| - 1]];
      assert forall j :: 0 <= j < |init| ==> init[j] == list[j];
    }
  }

  /** The lists of a choice name servers in use. */
  predicate Grounded(b: Balancer, k: Choice) {
    && |b.members.slots| == MAXSERVERS && |b.clones.slots| == MAXSERVERS
    && k.nextMember in k.members && k.nextClone < MAXSERVERS
    && Listed(b.members.slots, k.members) && Listed(b.clones.slots, k.clones)
    && (k.useClone <==> k.clones != [])
  }

  function SetRr(b: Balancer, k: Choice): Choice
    requires Grounded(b, k)
  {
    k.(nextMember := Successor(b.members.slots, k.members, k.nextMember),
       nextClone := if k.useClone then Successor(b.clones.slots, k.clones, k.nextClone) else k.nextClone)
  }

  function SetLeast(b: Balancer, k: Choice, key: Server -> real): Choice
    requires Grounded(b, k)
  {
    k.(nextMember := Least(b.members.slots, k.members, k.nextMember, key),
       nextClone := if k.useClone then Least(b.clones.slots, k.clones, k.nextClone, key) else k.nextClone)
  }

  /** Connections, the key of LC. */
  function Connections(s: Server): real {
    s.c as real
  }

  /** Load weighted with connections, the key of LL. */
  function WeightedLoad(weight: real): Server -> real {
    (s: Server) => s.load + (s.c as real) * weight
  }

  lemma {:induction false} RrStaysGrounded(b: Balancer, k: Choice)
    requires Grounded(b, k)
    ensures Grounded(b, SetRr(b, k))
  {
    var i := Position(k.members, k.nextMember);
    var j := (i + 1) % |k.members|;
    assert k.members[j] in k.members;
    if k.useClone && k.nextClone in k.clones {
      var i' := Position(k.clones, k.nextClone);
      var j' := (i' + 1) % |k.clones|;
      assert k.clones[j'] in k.clones;
    }
  }

  function SetLc(b: Balancer, k: Choice): Choice
    requires Grounded(b, k)
  {
    RrStaysGrounded(b, k);
    SetLeast(b, SetRr(b, k), Connections)
  }

  function SetStatic(b: Balancer, k: Choice, req: Request): Choice
    requires Grounded(b, k) && req != Undefined
  {
    match req
    case NotHttp => SetLc(b, k)
    case Resource(path) =>
      k.(nextMember := k.members[Bucket(path) % |k.members|],
         nextClone := if k.useClone then k.clones[Bucket(path) % |k.clones|] else k.nextClone)
  }

  /** A bucket of the table goes to a member, whose counter is raised. */
  function Assign(b: Balancer, bucket: nat, m: nat): Balancer
    requires RegistryOk(b) && bucket < HASHTABLESIZE && m < MAXSERVERS
  {
    var s := b.members.slots[m];
    b.(table := b.table[bucket := m],
       members := b.members.(slots := b.members.slots[m := s.(usage := (s.usage + 1) % SHORT)]))
  }

  /** A bucket is taken from the member it is bound to, whose counter is lowered. */
  function Unbind(b: Balancer, bucket: nat): Balancer
    requires RegistryOk(b) && bucket < HASHTABLESIZE
  {
    if b.table[bucket] == HASH_VAL_FREE then b
    else
      var m := b.table[bucket];
      var s := b.members.slots[m];
      b.(table := b.table[bucket := HASH_VAL_FREE],
         members := b.members.(slots := b.members.slots[m := s.(usage := (s.usage - 1) % SHORT)]))
  }

  /** The member a bucket is bound to, when it may still be used. */
  function Bound(b: Balancer, k: Choice, bucket: nat): Option<nat>
    requires RegistryOk(b) && bucket < HASHTABLESIZE
  {
    if b.table[bucket] == HASH_VAL_FREE then None
    else
      var verdict := Verify(b.strict, b.members.slots[b.table[bucket]]);
      if verdict == 0 || (verdict == 1 && k.usingStandby) then Some(b.table[bucket]) else None
  }

  lemma {:induction false} LcStaysGrounded(b: Balancer, k: Choice)
    requires Grounded(b, k)
    ensures Grounded(b, SetLc(b, k))
  {
    RrStaysGrounded(b, k);
    var r := SetRr(b, k);
    LeastIsMinimum(b.members.slots, r.members, r.nextMember, Connections);
    if k.useClone { LeastIsMinimum(b.clones.slots, r.clones, r.nextClone, Connections); }
  }

  /** Unbinding restores the accounting with the bucket unassigned. */
  lemma {:induction false} UnbindKeepsOk(b: Balancer, bucket: nat)
    requires RegistryOk(b) && bucket < HASHTABLESIZE
    ensures RegistryOk(Unbind(b, bucket)) && Unbind(b, bucket).table[bucket] == HASH_VAL_FREE
    ensures Unbind(b, bucket).table == b.table[bucket := HASH_VAL_FREE]
    ensures forall m :: 0 <= m < MAXSERVERS ==>
      Unbind(b, bucket).members.slots[m] == b.members.slots[m].(usage := Unbind(b, bucket).members.slots[m].usage)
  {
    if b.table[bucket] != HASH_VAL_FREE {
      var b' := Unbind(b, bucket);
      CountBound(b.table, b.table[bucket]);
      forall m | 0 <= m < MAXSERVERS ensures b'.members.slots[m].usage == Count(b'.table, m) {
        CountUpdate(b.table, bucket, HASH_VAL_FREE, m);
      }
    }
  }

  /** Assigning a free bucket keeps the accounting, and the counter cannot wrap. */
  lemma {:induction false} AssignKeepsOk(b: Balancer, bucket: nat, m: nat)
    requires RegistryOk(b) && bucket < HASHTABLESIZE && b.table[bucket] == HASH_VAL_FREE
    requires m < MAXSERVERS && b.members.slots[m].status != Free
    ensures RegistryOk(Assign(b, bucket, m))
    ensures forall i :: 0 <= i < MAXSERVERS ==>
      Assign(b, bucket, m).members.slots[i] == b.members.slots[i].(usage := Assign(b, bucket, m).members.slots[i].usage)
  {
    var b' := Assign(b, bucket, m);
    CountUpdate(b.table, bucket, m, m);
    CountBound(b'.table, m);
    forall i | 0 <= i < MAXSERVERS ensures b'.members.slots[i].usage == Count(b'.table, i) {
      CountUpdate(b.table, bucket, m, i);
    }
  }

  /** set_hash_server: a usable binding is kept; otherwise LC chooses and is bound. */
  function SetHash(b: Balancer, k: Choice, req: Request): (Balancer, Choice)
    requires RegistryOk(b) && Grounded(b, k) && req != Undefined
  {
    match req
    case NotHttp => (b, SetLc(b, k))
    case Resource(path) =>
      var bucket := Bucket(path);
      match Bound(b, k, bucket)
      case Some(m) =>
        (b, k.(nextMember := b.members.slots[m].id,
               nextClone := if k.useClone then k.clones[bucket % |k.clones|] else k.nextClone))
      case None =>
        LcStaysGrounded(b, k);
        var l := SetLc(b, k);
        UnbindKeepsOk(b, bucket);
        (Assign(Unbind(b, bucket), bucket, l.nextMember), l)
  }

  lemma {:induction false} AvailableIsGrounded(b: Balancer)
    requires RegistryOk(b) && Available(b).Some?
    ensures Grounded(b, Available(b).value)
  {
    AvailableSound(b);
    hide Available, HashOk;
    var k := Available(b).value;
    forall j | 0 <= j < |k.members| ensures k.members[j] < MAXSERVERS && b.members.slots[k.members[j]].id == k.members[j] {
      assert k.members[j] in k.members;
    }
    forall j | 0 <= j < |k.clones| ensures k.clones[j] < MAXSERVERS && b.clones.slots[k.clones[j]].id == k.clones[j] {
      assert k.clones[j] in k.clones;
    }
  }

  function RunAlgorithm(b: Balancer, k: Choice, req: Request): (Balancer, Choice)
    requires RegistryOk(b) && Grounded(b, k) && req != Undefined
  {
    match b.algorithm
    case RoundRobin => (b, SetRr(b, k))
    case LeastLoad => (b, SetLeast(b, k, WeightedLoad(b.weight)))
    case LeastConnections => (b, SetLc(b, k))
    case Hash => SetHash(b, k, req)
    case Static => (b, SetStatic(b, k, req))
  }

  datatype Selected = Selected(b: Balancer, k: Choice)

  /** choose_server up to the connection: the algorithm applied to what is available. The
      cursors are kept in the balancer for the next selection. */
  function Choose(b: Balancer, req: Request): Option<Selected>
    requires RegistryOk(b) && req != Undefined
  {
    if Available(b).None? then None
    else
      AvailableIsGrounded(b);
      var (b', k') := RunAlgorithm(b, Available(b).value, req);
      Some(Selected(b'.(nextMember := k'.nextMember, nextClone := k'.nextClone), k'))
  }

  // ----- soundness of all five

  /** What a selection must respect. */
  predicate Sound(b: Balancer, k: Choice) {
    && |b.members.slots| == MAXSERVERS && |b.clones.slots| == MAXSERVERS
    && b.members.count <= MAXSERVERS && b.clones.count <= MAXSERVERS
    && k.nextMember < b.members.count && Eligible(b.strict, b.members.slots[k.nextMember])
    && (b.members.slots[k.nextMember].standby ==>
          forall i :: 0 <= i < b.members.count ==> !Passes(b.strict, false, b.members.slots[i]))
    && (k.useClone ==> k.nextClone < b.clones.count && Eligible(b.strict, b.clones.slots[k.nextClone]))
  }

  /** The choice still draws from what was available. */
  predicate DrawsFrom(k: Choice, a: Choice) {
    && k.members == a.members && k.clones == a.clones && k.useClone == a.useClone && k.usingStandby == a.usingStandby
    && k.nextMember in a.members
    && (k.nextClone == a.nextClone || (a.useClone && k.nextClone in a.clones))
  }

  lemma {:induction false} RrDraws(b: Balancer, k: Choice)
    requires Grounded(b, k)
    ensures DrawsFrom(SetRr(b, k), k)
  {
    RrStaysGrounded(b, k);
    if k.useClone && k.nextClone in k.clones {
      var i := Position(k.clones, k.nextClone);
      var j := (i + 1) % |k.clones|;
      assert k.clones[j] in k.clones;
    }
  }

  lemma {:induction false} LeastDraws(b: Balancer, k: Choice, key: Server -> real)
    requires Grounded(b, k)
    ensures DrawsFrom(SetLeast(b, k, key), k)
  {
    LeastIsMinimum(b.members.slots, k.members, k.nextMember, key);
    if k.useClone { LeastIsMinimum(b.clones.slots, k.clones, k.nextClone, key); }
  }

  lemma {:induction false} LcDraws(b: Balancer, k: Choice)
    requires Grounded(b, k)
    ensures DrawsFrom(SetLc(b, k), k)
  {
    RrDraws(b, k);
    RrStaysGrounded(b, k);
    LeastDraws(b, SetRr(b, k), Connections);
  }

  lemma {:induction false} StaticDraws(b: Balancer, k: Choice, req: Request)
    requires Grounded(b, k) && req != Undefined
    ensures DrawsFrom(SetStatic(b, k, req), k)
  {
    match req
    case NotHttp => LcDraws(b, k);
    case Resource(path) =>
      var i := Bucket(path) % |k.members|;
      assert k.members[i] in k.members;
      if k.useClone {
        var j := Bucket(path) % |k.clones|;
        assert k.clones[j] in k.clones;
      }
  }

  lemma {:induction false} HashDraws(b: Balancer, req: Request)
    requires RegistryOk(b) && req != Undefined && Available(b).Some?
    ensures Grounded(b, Available(b).value)
    ensures DrawsFrom(SetHash(b, Available(b).value, req).1, Available(b).value)
  {
    AvailableSound(b);
    AvailableIsGrounded(b);
    var k := Available(b).value;
    LcDraws(b, k);
    if req.Resource? {
      var bucket := Bucket(req.path);
      if Bound(b, k, bucket).Some? {
        BoundIsAvailable(b, bucket);
        if k.useClone {
          var j := bucket % |k.clones|;
          assert k.clones[j] in k.clones;
        }
      }
    }
  }

  lemma {:induction false} BoundIsAvailable(b: Balancer, bucket: nat)
    requires RegistryOk(b) && Available(b).Some? && bucket < HASHTABLESIZE
    requires Bound(b, Available(b).value, bucket).Some?
    ensures var m := Bound(b, Available(b).value, bucket).value;
      m in Available(b).value.members && b.members.slots[m].id == m
  {
    AvailableSound(b);
  }

  lemma {:induction false} ChooseDraws(b: Balancer, req: Request)
    requires RegistryOk(b) && req != Undefined && Choose(b, req).Some?
    ensures Available(b).Some? && DrawsFrom(Choose(b, req).value.k, Available(b).value)
  {
    AvailableIsGrounded(b);
    var k := Available(b).value;
    match b.algorithm
    case RoundRobin => RrDraws(b, k);
    case LeastLoad => LeastDraws(b, k, WeightedLoad(b.weight));
    case LeastConnections => LcDraws(b, k);
    case Hash => HashDraws(b, req);
    case Static => StaticDraws(b, k, req);
  }

  /** Selection soundness, for all five algorithms: a selection fails exactly when no member
      is eligible; the chosen member is enabled, below its connection limit, in strict mode
      not loaded beyond 100%, and a standby only if no other member is eligible; a chosen
      clone is eligible too. */
  lemma {:induction false} SelectionSound(b: Balancer, req: Request)
    requires RegistryOk(b) && req != Undefined
    ensures Choose(b, req) == None <==> forall i :: 0 <= i < b.members.count ==> !Eligible(b.strict, b.members.slots[i])
    ensures Choose(b, req).Some? ==> Sound(b, Choose(b, req).value.k)
  {
    AvailableSound(b);
    if Choose(b, req).Some? {
      ChooseDraws(b, req);
      hide Choose, Available;
    }
  }

  /** A change of nothing but usage counters. */
  predicate OnlyUsage(v: Servers, w: Servers) {
    && |v.slots| == |w.slots| && v.count == w.count
    && forall i :: 0 <= i < |v.slots| ==> w.slots[i] == v.slots[i].(usage := w.slots[i].usage)
  }

  lemma {:induction false} RebindKeepsOk(b: Balancer, bucket: nat, m: nat)
    requires RegistryOk(b) && bucket < HASHTABLESIZE && m < MAXSERVERS && b.members.slots[m].status != Free
    ensures RegistryOk(Unbind(b, bucket))
    ensures var b' := Assign(Unbind(b, bucket), bucket, m);
      RegistryOk(b') && OnlyUsage(b.members, b'.members) && b' == b.(members := b'.members, table := b'.table)
  {
    UnbindKeepsOk(b, bucket);
    AssignKeepsOk(Unbind(b, bucket), bucket, m);
    hide RegistryOk;
  }

  lemma {:induction false} HashKeepsOk(b: Balancer, req: Request)
    requires RegistryOk(b) && req != Undefined && Available(b).Some?
    ensures Grounded(b, Available(b).value)
    ensures var b' := SetHash(b, Available(b).value, req).0;
      RegistryOk(b') && OnlyUsage(b.members, b'.members) &&
      b' == b.(members := b'.members, table := b'.table)
  {
    AvailableSound(b);
    AvailableIsGrounded(b);
    var k := Available(b).value;
    if req.Resource? && Bound(b, k, Bucket(req.path)).None? {
      LcDraws(b, k);
      LcStaysGrounded(b, k);
      var l := SetLc(b, k);
      assert l.nextMember < MAXSERVERS && b.members.slots[l.nextMember].status == Enabled;
      RebindKeepsOk(b, Bucket(req.path), l.nextMember);
      hide Available, SetLc, Bucket, Verify, Assign, Unbind, RegistryOk;
    }
  }

  /** A selection keeps the registry and the hash accounting, and changes nothing but the
      cursors, the table and the usage counters. */
  lemma {:induction false} ChooseKeepsOk(b: Balancer, req: Request)
    requires RegistryOk(b) && req != Undefined && Choose(b, req).Some?
    ensures var b' := Choose(b, req).value.b;
      RegistryOk(b') && OnlyUsage(b.members, b'.members) &&
      b' == b.(members := b'.members, table := b'.table, nextMember := b'.nextMember, nextClone := b'.nextClone)
  {
    AlgorithmKeepsOk(b, req);
    CursorsInRange(b, req);
    hide Available, RunAlgorithm, SlotsOk, HashOk, OnlyUsage, Grounded;
  }

  lemma {:induction false} AlgorithmKeepsOk(b: Balancer, req: Request)
    requires RegistryOk(b) && req != Undefined && Available(b).Some?
    ensures Grounded(b, Available(b).value)
    ensures var b' := RunAlgorithm(b, Available(b).value, req).0;
      RegistryOk(b') && OnlyUsage(b.members, b'.members) && b' == b.(members := b'.members, table := b'.table)
  {
    AvailableIsGrounded(b);
    if b.algorithm == Hash { HashKeepsOk(b, req); }
    hide Available, SetHash, SetLc, SetRr, SetStatic, SetLeast, RegistryOk, Grounded;
  }

  lemma {:induction false} CursorsInRange(b: Balancer, req: Request)
    requires RegistryOk(b) && req != Undefined && Choose(b, req).Some?
    ensures Choose(b, req).value.k.nextMember < MAXSERVERS && Choose(b, req).value.k.nextClone < MAXSERVERS
  {
    AvailableSound(b);
    ChooseDraws(b, req);
    hide Available, Choose, RegistryOk;
  }

  // ----- HASH keeps its bindings

  /** A request for a bound bucket goes to its member, while that may be used, and leaves the
      table alone. */
  lemma {:induction false} BoundRequestHits(b: Balancer, path: seq<Byte>)
    requires RegistryOk(b) && b.algorithm == Hash && Available(b).Some?
    requires Bound(b, Available(b).value, Bucket(path)).Some?
    ensures var r := Choose(b, Resource(path));
      r.Some? && r.value.k.nextMember == b.table[Bucket(path)] && r.value.b.table == b.table && r.value.b.members == b.members
  {
    BoundIsAvailable(b, Bucket(path));
    hide Available, Bucket, Verify;
  }

  /** A request for a bound bucket whose member may not be used takes it to another one. */
  lemma {:induction false} UnusableIsReplaced(b: Balancer, path: seq<Byte>)
    requires RegistryOk(b) && b.algorithm == Hash && Available(b).Some?
    requires b.table[Bucket(path)] != HASH_VAL_FREE && Bound(b, Available(b).value, Bucket(path)).None?
    ensures Choose(b, Resource(path)).Some?
    ensures var t := Choose(b, Resource(path)).value.b.table;
      |t| == HASHTABLESIZE && t[Bucket(path)] != b.table[Bucket(path)]
  {
    RequestBinds(b, path);
    ChooseDraws(b, Resource(path));
    assert b.table[Bucket(path)] !in Available(b).value.members by {
      AvailableSound(b);
      hide Available, Bucket;
    }
    hide Choose, Available, Bucket, RegistryOk, Bound;
  }

  /** Every request with a path leaves its bucket bound to the member it was sent to, also a
      first one and one whose old member may no longer be used. */
  lemma {:induction false} RequestBinds(b: Balancer, path: seq<Byte>)
    requires RegistryOk(b) && b.algorithm == Hash && Available(b).Some?
    ensures Choose(b, Resource(path)).Some?
    ensures var r := Choose(b, Resource(path)).value;
      |r.b.table| == HASHTABLESIZE && r.b.table[Bucket(path)] == r.k.nextMember
  {
    AvailableIsGrounded(b);
    var k := Available(b).value;
    if Bound(b, k, Bucket(path)).Some? { BoundIsAvailable(b, Bucket(path)); }
    UnbindKeepsOk(b, Bucket(path));
    hide Available, SetLc, Bucket, Verify;
  }

  lemma {:induction false} HashMoves(b: Balancer, req: Request, bucket: nat)
    requires RegistryOk(b) && req.Resource? && Available(b).Some? && bucket < HASHTABLESIZE
    requires Bucket(req.path) == bucket ==> Bound(b, Available(b).value, bucket).Some?
    ensures Grounded(b, Available(b).value)
    ensures var t := SetHash(b, Available(b).value, req).0.table;
      |t| == |b.table| && t[bucket] == b.table[bucket]
  {
    AvailableIsGrounded(b);
    UnbindKeepsOk(b, Bucket(req.path));
    hide SetLc, Bucket, Count, Available, Verify, SlotsOk;
  }

  /** No request moves another bucket, nor a bound one whose member may be used. */
  lemma {:induction false} OtherBucketsStay(b: Balancer, req: Request, bucket: nat)
    requires RegistryOk(b) && req != Undefined && Available(b).Some? && bucket < HASHTABLESIZE
    requires b.algorithm == Hash && req.Resource? && Bucket(req.path) == bucket ==> Bound(b, Available(b).value, bucket).Some?
    ensures Choose(b, req).Some?
    ensures |Choose(b, req).value.b.table| == HASHTABLESIZE && Choose(b, req).value.b.table[bucket] == b.table[bucket]
  {
    AvailableIsGrounded(b);
    if b.algorithm == Hash && req.Resource? {
      HashMoves(b, req, bucket);
    } else {
      NoTableMoves(b, req);
    }
    assert |b.table| == HASHTABLESIZE;
    hide RegistryOk, Available, Bound, SetHash, Bucket, Grounded;
    ChooseTable(b, req);
  }

  lemma {:induction false} NoTableMoves(b: Balancer, req: Request)
    requires RegistryOk(b) && Available(b).Some? && req != Undefined && Grounded(b, Available(b).value)
    requires !(b.algorithm == Hash && req.Resource?)
    ensures RunAlgorithm(b, Available(b).value, req).0.table == b.table
  {
    hide RegistryOk, Available, Grounded, SetRr, SetLc, SetLeast, SetStatic;
  }

  lemma {:induction false} ChooseTable(b: Balancer, req: Request)
    requires RegistryOk(b) && Available(b).Some? && req != Undefined && Grounded(b, Available(b).value)
    ensures Choose(b, req).Some?
    ensures Choose(b, req).value.b.table == RunAlgorithm(b, Available(b).value, req).0.table
  {
    hide RegistryOk, Available, Grounded, RunAlgorithm;
  }
}
