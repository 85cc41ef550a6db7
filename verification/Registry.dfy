/** The shared balancer structure: the slots of members and clones, the hash table, and the
    steps that admin commands and health checks take on them. */
module Registry {
  import opened UriHash

  const MAXSERVERS: nat := 512
  const HASH_VAL_FREE: int := -1

  datatype Status = Free | Deleted | Failed | Disabled | Enabled

  datatype Server = Server(id: nat, status: Status, standby: bool, c: int, maxc: int,
                           load: real, maxl: real, eload: int, usage: nat)

  /** A slot overwritten with zeros: free, and by the encoding of the flag a standby. */
  const BLANK := Server(0, Free, true, 0, 0, 0.0, 0.0, 0, 0)

  /** A fixed array of slots of which the first count may be in use. */
  datatype Servers = Servers(slots: seq<Server>, count: nat)

  datatype CloneMode = CloneOff | CloneOn | CloneFailed

  datatype Algorithm = RoundRobin | LeastConnections | LeastLoad | Hash | Static

  datatype Balancer = Balancer(
    members: Servers, clones: Servers, table: seq<int>,
    algorithm: Algorithm, cloneMode: CloneMode, strict: bool, weight: real,
    threshold: int, size: int, overallLoad: int,
    nextMember: nat, nextClone: nat)

  // ----- counting

  /** How often v occurs in t. */
  function Count(t: seq<int>, v: int): nat {
    if t == [] then 0 else Count(t[..|t| - 1], v) + (if t[|t| - 1] == v then 1 else 0)
  }

  lemma {:induction false} CountUpdate(t: seq<int>, i: nat, x: int, v: int)
    requires i < |t|
    ensures Count(t[i := x], v) + (if t[i] == v then 1 else 0) == Count(t, v) + (if x == v then 1 else 0)
  {
    var init := t[..|t| - 1];
    if i < |init| {
      CountUpdate(init, i, x, v);
      assert t[i := x][..|t| - 1] == init[i := x];
    } else {
      assert t[i := x][..|t| - 1] == init;
    }
  }

  lemma {:induction false} CountBound(t: seq<int>, v: int)
    ensures Count(t, v) <= |t|
    ensures forall i :: 0 <= i < |t| && t[i] == v ==> Count(t, v) > 0
  {
    if t != [] {
      CountBound(t[..|t| - 1], v);
      assert forall i :: 0 <= i < |t| - 1 ==> t[..|t| - 1][i] == t[i];
    }
  }

  lemma {:induction false} CountNone(t: seq<int>, v: int)
    requires forall i :: 0 <= i < |t| ==> t[i] != v
    ensures Count(t, v) == 0
  {
    if t != [] {
      CountNone(t[..|t| - 1], v);
    }
  }

  lemma {:induction false} CountSame(t: seq<int>, u: seq<int>, v: int)
    requires |t| == |u| && forall i :: 0 <= i < |t| ==> (t[i] == v <==> u[i] == v)
    ensures Count(t, v) == Count(u, v)
  {
    if t != [] {
      CountSame(t[..|t| - 1], u[..|t| - 1], v);
    }
  }

  // ----- the registry invariant

  /** Slots at or past the count are free, a used slot carries its own index, and a free
      slot counts nothing. */
  predicate SlotsOk(v: Servers) {
    && |v.slots| == MAXSERVERS && v.count <= MAXSERVERS
    && (forall i :: v.count <= i < MAXSERVERS ==> v.slots[i].status == Free)
    && (forall i :: 0 <= i < MAXSERVERS && v.slots[i].status != Free ==> v.slots[i].id == i)
    && (forall i :: 0 <= i < MAXSERVERS && v.slots[i].status == Free ==> v.slots[i].c == 0)
  }

  /** The usage counter of every member is the number of entries that name it, and every
      entry names a member in use. */
  predicate HashOk(members: Servers, table: seq<int>) {
    && |members.slots| == MAXSERVERS && |table| == HASHTABLESIZE
    && (forall i :: 0 <= i < |table| && table[i] != HASH_VAL_FREE ==>
          0 <= table[i] < MAXSERVERS && members.slots[table[i]].status != Free)
    && (forall m :: 0 <= m < MAXSERVERS ==> members.slots[m].usage == Count(table, m))
  }

  predicate RegistryOk(b: Balancer) {
    && SlotsOk(b.members) && SlotsOk(b.clones) && HashOk(b.members, b.table)
    && b.nextMember < MAXSERVERS && b.nextClone < MAXSERVERS
  }

  /** The balancer as initialize_balancer leaves it. */
  function InitialBalancer(): Balancer {
    var none := Servers(seq(MAXSERVERS, _ => BLANK), 0);
    Balancer(none, none, seq(HASHTABLESIZE, _ => HASH_VAL_FREE), LeastConnections, CloneOff, false,
             1.0 / 10.0, 30, 5, -1, 0, 0)
  }

  lemma {:induction false} InitialOk()
    ensures RegistryOk(InitialBalancer())
  {
    var b := InitialBalancer();
    forall m | 0 <= m < MAXSERVERS ensures b.members.slots[m].usage == Count(b.table, m) {
      CountNone(b.table, m);
    }
  }

  // ----- creating servers

  function NewServer(status: Status, standby: bool, maxc: int, maxl: real): Server {
    Server(0, status, standby, 0, maxc, -1.0, maxl, 0, 0)
  }

  /** The first free slot below n, or n. */
  function FirstFree(slots: seq<Server>, n: nat): (i: nat)
    requires n <= |slots|
    ensures i <= n && (forall k :: 0 <= k < i ==> slots[k].status != Free) && (i < n ==> slots[i].status == Free)
  {
    if n == 0 then 0
    else
      var i := FirstFree(slots, n - 1);
      if i < n - 1 then i else if slots[n - 1].status == Free then n - 1 else n
  }

  /** There is a slot for one more server. */
  predicate HasRoom(v: Servers) {
    |v.slots| == MAXSERVERS && v.count <= MAXSERVERS && FirstFree(v.slots, v.count) < MAXSERVERS
  }

  /** create_balancer_server: reuses the first free slot, or extends the array. */
  function Create(v: Servers, s: Server): Servers
    requires HasRoom(v)
  {
    var i := FirstFree(v.slots, v.count);
    Servers(v.slots[i := s.(id := i)], if i < v.count then v.count else v.count + 1)
  }

  lemma {:induction false} CreateKeeps(v: Servers, s: Server)
    requires SlotsOk(v) && HasRoom(v) && s.c == 0 && s.usage == 0
    ensures SlotsOk(Create(v, s))
    ensures var i := FirstFree(v.slots, v.count);
      && v.slots[i].status == Free && Create(v, s).slots[i] == s.(id := i)
      && (forall k :: 0 <= k < MAXSERVERS && k != i ==> Create(v, s).slots[k] == v.slots[k])
  {
  }

  // ----- admin commands

  /** The slots admin commands act on. */
  predicate Manageable(v: Servers, i: int) {
    && |v.slots| == MAXSERVERS && v.count <= MAXSERVERS
    && 0 <= i < v.count && v.slots[i].status != Free && v.slots[i].status != Deleted
  }

  /** A command with one target; a bad target is refused and changes nothing. */
  function OnOne(v: Servers, i: int, f: Server -> Server): Servers {
    if Manageable(v, i) then v.(slots := v.slots[i := f(v.slots[i])]) else v
  }

  /** A command on all servers. */
  function OnAll(v: Servers, f: Server -> Server): Servers {
    v.(slots := seq(|v.slots|, i requires 0 <= i < |v.slots| =>
      if Manageable(v, i) then f(v.slots[i]) else v.slots[i]))
  }

  /** A pass over the slots below the count. */
  function OnCount(v: Servers, f: Server -> Server): Servers {
    v.(slots := seq(|v.slots|, i requires 0 <= i < |v.slots| => if i < v.count then f(v.slots[i]) else v.slots[i]))
  }

  function EnableServer(s: Server): Server {
    if s.status == Disabled then s.(status := Enabled) else s
  }

  function DisableServer(s: Server): Server {
    if s.status == Enabled || s.status == Failed then s.(status := Disabled) else s
  }

  function DeleteServer(s: Server): Server {
    s.(status := Deleted)
  }

  function ToggleStandby(s: Server): Server {
    s.(standby := !s.standby)
  }

  /** A change to a slot that keeps its identity, its connections and its buckets. */
  predicate Mild(s: Server, t: Server) {
    && t.id == s.id && t.c == s.c && t.usage == s.usage && (t.status == Free <==> s.status == Free)
  }

  predicate MildChange(v: Servers, w: Servers) {
    && |v.slots| == |w.slots| && v.count == w.count
    && forall i :: 0 <= i < |v.slots| ==> Mild(v.slots[i], w.slots[i])
  }

  lemma {:induction false} MildKeepsOk(b: Balancer, b': Balancer)
    requires RegistryOk(b) && MildChange(b.members, b'.members) && MildChange(b.clones, b'.clones)
    requires b'.table == b.table && b'.nextMember < MAXSERVERS && b'.nextClone < MAXSERVERS
    ensures RegistryOk(b')
  {
    forall i | 0 <= i < |b'.table| && b'.table[i] != HASH_VAL_FREE
      ensures 0 <= b'.table[i] < MAXSERVERS && b'.members.slots[b'.table[i]].status != Free
    {
      assert b.table[i] != HASH_VAL_FREE;
      assert Mild(b.members.slots[b.table[i]], b'.members.slots[b.table[i]]);
    }
  }

  lemma {:induction false} CommandsAreMild(v: Servers, i: int, f: Server -> Server)
    requires forall s: Server :: s.status != Free ==> Mild(s, f(s))
    ensures MildChange(v, OnOne(v, i, f)) && MildChange(v, OnAll(v, f))
  {
  }

  // ----- health checks

  /** Only enabled and failed servers are probed. */
  predicate Probed(s: Server) {
    s.status == Enabled || s.status == Failed
  }

  /** check_server_state with the outcome of the probe. */
  function Probe(s: Server, alive: bool): Server {
    if !Probed(s) then s
    else if alive then s.(status := Enabled)
    else s.(status := Failed, load := -1.0, eload := 0)
  }

  /** Some clone is enabled. */
  predicate SomeEnabled(v: Servers) {
    |v.slots| == MAXSERVERS && v.count <= MAXSERVERS && exists i :: 0 <= i < v.count && v.slots[i].status == Enabled
  }

  /** set_cloned_state: cloning fails without an enabled clone and revives with one. */
  function ClonedState(mode: CloneMode, clones: Servers): CloneMode {
    if mode == CloneOff then CloneOff
    else if SomeEnabled(clones) then CloneOn else CloneFailed
  }

  /** A deleted server is not brought back by any command or probe. */
  lemma {:induction false} DeletedStaysDeleted(v: Servers, i: nat, k: int, alive: bool)
    requires i < |v.slots| && v.slots[i].status == Deleted
    ensures Probe(v.slots[i], alive).status == Deleted
    ensures forall f: Server -> Server ::
      OnOne(v, k, f).slots[i].status == Deleted && OnAll(v, f).slots[i].status == Deleted
  {
    forall f: Server -> Server
      ensures OnOne(v, k, f).slots[i].status == Deleted && OnAll(v, f).slots[i].status == Deleted
    {
      assert OnOne(v, k, f).slots[i] == v.slots[i];
      assert OnAll(v, f).slots[i] == v.slots[i];
    }
  }
}
