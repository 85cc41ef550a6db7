/** The whole balancer: the master with its sessions, the admin tool and the monitor, all
    stepping on the shared structure in any order. One handler call, one command, one check
    of one server and one pass of the monitor are each one step. */
module System {
  import opened Relay
  import opened RelayInvariants
  import opened RelayStale
  import opened UriHash
  import opened Registry
  import opened Selection
  import opened Monitor

  // ----- steps of the admin and the monitor

  datatype Command = Enable | Disable | Delete | Standby | MaxC(maxc: int) | MaxL(maxl: real)

  function Apply(cmd: Command, s: Server): Server {
    match cmd
    case Enable => EnableServer(s)
    case Disable => DisableServer(s)
    case Delete => DeleteServer(s)
    case Standby => ToggleStandby(s)
    case MaxC(n) => s.(maxc := n)
    case MaxL(l) => s.(maxl := l)
  }

  datatype SharedStep =
    | CreateServer(clone: bool, status: Status, standby: bool, maxc: int, maxl: real)
    | OneCommand(clone: bool, target: int, cmd: Command)
    | AllCommand(cmd: Command)
    | Configure(algorithm: Algorithm, strict: bool, weight: real, threshold: int, size: int)
    | SetCloning(on: bool)
    | ProbeServer(clone: bool, slot: nat, alive: bool)
    | ReapPass
    | SampleLoad(clone: bool, slot: nat, load: real)
    | LoadPass
    | RebalancePass(sorted: seq<Server>)

  /** The step can be taken: there is room for a new server, passes over all servers only
      enable or disable, settings are in range, and qsort sorts. */
  predicate SharedPossible(b: Balancer, step: SharedStep) {
    match step
    case CreateServer(clone, status, _, _, _) =>
      status != Free && HasRoom(if clone then b.clones else b.members)
    case AllCommand(cmd) => cmd.Enable? || cmd.Disable?
    case Configure(_, _, weight, threshold, size) => weight >= 0.0 && 0 <= threshold <= 100 && 0 <= size <= 100
    case ProbeServer(clone, slot, _) => slot < (if clone then b.clones else b.members).count
    case SampleLoad(clone, slot, _) => slot < (if clone then b.clones else b.members).count
    case RebalancePass(sorted) =>
      b.members.count <= |b.members.slots| && SortedByLoad(sorted, Subjects(b.members.slots, b.members.count))
    case _ => true
  }

  function AtSlot(v: Servers, i: nat, f: Server -> Server): Servers {
    if i < |v.slots| then v.(slots := v.slots[i := f(v.slots[i])]) else v
  }

  /** Clone mode follows the clones after the commands and checks that re-evaluate it. */
  function Reevaluated(b: Balancer): Balancer {
    b.(cloneMode := ClonedState(b.cloneMode, b.clones))
  }

  predicate SettingsOk(b: Balancer) {
    0 <= b.size <= 100
  }

  function Shared(b: Balancer, step: SharedStep): Balancer
    requires RegistryOk(b) && SettingsOk(b) && SharedPossible(b, step)
  {
    match step
    case CreateServer(clone, status, standby, maxc, maxl) =>
      var s := NewServer(status, standby, maxc, maxl);
      if clone then b.(clones := Create(b.clones, s)) else b.(members := Create(b.members, s))
    case OneCommand(clone, target, cmd) =>
      var f := (s: Server) => Apply(cmd, s);
      var b' := if clone then b.(clones := OnOne(b.clones, target, f)) else b.(members := OnOne(b.members, target, f));
      if Manageable(if clone then b.clones else b.members, target) && (cmd.Enable? || cmd.Disable?)
      then Reevaluated(b') else b'
    case AllCommand(cmd) =>
      var f := (s: Server) => Apply(cmd, s);
      Reevaluated(b.(members := OnAll(b.members, f), clones := OnAll(b.clones, f)))
    case Configure(algorithm, strict, weight, threshold, size) =>
      b.(algorithm := algorithm, strict := strict, weight := weight, threshold := threshold, size := size)
    case SetCloning(on) => Reevaluated(b.(cloneMode := if on then CloneOn else CloneOff))
    case ProbeServer(clone, slot, alive) =>
      var f := (s: Server) => Probe(s, alive);
      if !Probed((if clone then b.clones else b.members).slots[slot]) then b
      else Reevaluated(if clone then b.(clones := AtSlot(b.clones, slot, f)) else b.(members := AtSlot(b.members, slot, f)))
    case ReapPass =>
      var (v, t) := ReapMembers(b.members, b.table, 0);
      b.(members := v, table := t, clones := ReapClones(b.clones, 0))
    case SampleLoad(clone, slot, load) =>
      var f := (s: Server) => if s.status == Enabled || s.status == Disabled then s.(load := load) else s;
      if clone then b.(clones := AtSlot(b.clones, slot, f)) else b.(members := AtSlot(b.members, slot, f))
    case LoadPass =>
      b.(members := OnCount(b.members, EffectiveLoad), clones := OnCount(b.clones, EffectiveCloneLoad),
         overallLoad := OverallLoad(b.members.slots, b.members.count, b.overallLoad))
    case RebalancePass(sorted) =>
      SortedIdsInRange(b.members, sorted);
      Rebalance(b, sorted)
  }

  /** No connection count is touched. */
  predicate SameConnections(v: Servers, w: Servers) {
    |v.slots| == |w.slots| && forall i :: 0 <= i < |v.slots| ==> w.slots[i].c == v.slots[i].c
  }

  predicate Keeps(b: Balancer, b': Balancer) {
    && RegistryOk(b') && SettingsOk(b')
    && SameConnections(b.members, b'.members) && SameConnections(b.clones, b'.clones)
  }

  lemma {:induction false} MildIsKept(b: Balancer, b': Balancer)
    requires RegistryOk(b) && SettingsOk(b') && MildChange(b.members, b'.members) && MildChange(b.clones, b'.clones)
    requires b'.table == b.table && b'.nextMember == b.nextMember && b'.nextClone == b.nextClone
    ensures Keeps(b, b')
  {
    MildKeepsOk(b, b');
  }

  lemma {:induction false} CreateKept(b: Balancer, clone: bool, s: Server)
    requires RegistryOk(b) && SettingsOk(b) && s.c == 0 && s.usage == 0 && s.status != Free
    requires HasRoom(if clone then b.clones else b.members)
    ensures Keeps(b, if clone then b.(clones := Create(b.clones, s)) else b.(members := Create(b.members, s)))
  {
    if clone {
      CreateKeeps(b.clones, s);
    } else {
      CreateKeeps(b.members, s);
      var i := FirstFree(b.members.slots, b.members.count);
      var v := Create(b.members, s);
      forall k | 0 <= k < |b.table| ensures b.table[k] != i {
        assert b.table[k] != HASH_VAL_FREE ==> b.members.slots[b.table[k]].status != Free;
      }
      CountNone(b.table, i);
      hide Create, Count;
    }
  }

  lemma {:induction false} ReapKept(b: Balancer)
    requires RegistryOk(b) && SettingsOk(b)
    ensures Keeps(b, Shared(b, ReapPass))
  {
    ReapMembersKeeps(b.members, b.table, 0);
    ReapClonesKeeps(b.clones, 0);
    hide ReapMembers, ReapClones, HashOk, SlotsOk;
  }

  /** Every step of the admin and the monitor keeps the registry, the hash accounting and
      all connection counts. */
  lemma {:induction false} SharedKeeps(b: Balancer, step: SharedStep)
    requires RegistryOk(b) && SettingsOk(b) && SharedPossible(b, step)
    ensures Keeps(b, Shared(b, step))
  {
    match step
    case CreateServer(clone, status, standby, maxc, maxl) =>
      hide Create, RegistryOk;
      CreateKept(b, clone, NewServer(status, standby, maxc, maxl));
    case OneCommand(clone, target, cmd) =>
      OneCommandMild(b, clone, target, cmd);
    case AllCommand(cmd) =>
      AllCommandMild(b, cmd);
    case Configure(_, _, _, _, _) =>
      MildIsKept(b, Shared(b, step));
    case SetCloning(_) =>
      MildIsKept(b, Shared(b, step));
    case ReapPass =>
      ReapKept(b);
    case RebalancePass(sorted) =>
      RebalanceKeepsOk(b, sorted);
      hide Rebalance, HashOk, SlotsOk;
      RebalanceKeepsRest(b, sorted);
    case _ =>
      LoadStepMild(b, step);
  }

  lemma {:induction false} RebalanceKeepsRest(b: Balancer, sorted: seq<Server>)
    requires RegistryOk(b) && b.size >= 0 && forall s :: s in sorted ==> s.id < MAXSERVERS
    ensures var b' := Rebalance(b, sorted);
      b' == b.(members := b'.members, table := b'.table) && |b'.members.slots| == |b.members.slots|
      && b'.members.count == b.members.count
  {
  }

  lemma {:induction false} OneCommandMild(b: Balancer, clone: bool, target: int, cmd: Command)
    requires RegistryOk(b) && SettingsOk(b)
    ensures Keeps(b, Shared(b, OneCommand(clone, target, cmd)))
  {
    var f := (s: Server) => Apply(cmd, s);
    assert forall s: Server :: s.status != Free ==> Mild(s, f(s));
    CommandsAreMild(b.members, target, f);
    CommandsAreMild(b.clones, target, f);
    hide OnOne, OnAll, RegistryOk, Apply, Manageable, ClonedState, Keeps;
    var b' := if clone then b.(clones := OnOne(b.clones, target, f)) else b.(members := OnOne(b.members, target, f));
    MildIsKept(b, b');
    ReevaluationKeeps(b, b');
  }

  lemma {:induction false} ReevaluationKeeps(b: Balancer, b': Balancer)
    requires Keeps(b, b')
    ensures Keeps(b, Reevaluated(b'))
  {
    hide ClonedState, SlotsOk, HashOk;
  }

  lemma {:induction false} AllCommandMild(b: Balancer, cmd: Command)
    requires RegistryOk(b) && SettingsOk(b) && (cmd.Enable? || cmd.Disable?)
    ensures Keeps(b, Shared(b, AllCommand(cmd)))
  {
    var f := (s: Server) => Apply(cmd, s);
    assert forall s: Server :: s.status != Free ==> Mild(s, f(s));
    CommandsAreMild(b.members, 0, f);
    CommandsAreMild(b.clones, 0, f);
    hide OnOne, OnAll, RegistryOk, Apply;
    MildIsKept(b, Shared(b, AllCommand(cmd)));
  }

  lemma {:induction false} LoadStepMild(b: Balancer, step: SharedStep)
    requires RegistryOk(b) && SettingsOk(b) && SharedPossible(b, step)
    requires step.ProbeServer? || step.SampleLoad? || step.LoadPass?
    ensures Keeps(b, Shared(b, step))
  {
    match step
    case ProbeServer(clone, slot, alive) =>
      var f := (s: Server) => Probe(s, alive);
      SlotStepMild(b.members, slot, f);
      SlotStepMild(b.clones, slot, f);
      hide AtSlot, RegistryOk;
      MildIsKept(b, Shared(b, step));
    case SampleLoad(clone, slot, load) =>
      var f := (s: Server) => if s.status == Enabled || s.status == Disabled then s.(load := load) else s;
      SlotStepMild(b.members, slot, f);
      SlotStepMild(b.clones, slot, f);
      hide AtSlot, RegistryOk;
      MildIsKept(b, Shared(b, step));
    case LoadPass =>
      SlotStepMild(b.members, 0, EffectiveLoad);
      SlotStepMild(b.clones, 0, EffectiveCloneLoad);
      hide OnCount, RegistryOk;
      MildIsKept(b, Shared(b, step));
  }

  lemma {:induction false} SlotStepMild(v: Servers, i: nat, f: Server -> Server)
    requires forall s: Server :: Mild(s, f(s))
    ensures MildChange(v, AtSlot(v, i, f)) && MildChange(v, OnCount(v, f)) && MildChange(v, v)
  {
  }

  // ----- steps of the master

  /** How connecting to the chosen servers turns out, and on which new descriptors. */
  datatype Reaches = Reaches(member: Reach, memberfd: nat, clone: Reach, clonefd: nat)

  /** The balancer, the sessions, and whether an allocation marks a session fresh. */
  datatype World = World(b: Balancer, sessions: seq<Session>, setsFresh: bool)

  /** The master accepts a client into the session an allocation hands out, or handles an
      event of a session; or the admin or the monitor steps. Which session is handed out is
      left open: even a live one would not upset what is proved here. */
  datatype Step =
    | Accept(i: nat, fd: nat, watched: bool, env: Reaches)
    | Handle(i: nat, e: Event, env: Reaches, stale: seq<Byte>)
    | Other(shared: SharedStep)

  function PickFrom(sel: Option<Selected>, env: Reaches): Pick {
    match sel
    case None => Pick(false, 0, env.member, env.memberfd, false, 0, env.clone, env.clonefd)
    case Some(x) => Pick(true, x.k.nextMember, env.member, env.memberfd,
                         x.k.useClone, x.k.nextClone, env.clone, env.clonefd)
  }

  /** Handling the event leads to a server selection. */
  predicate Selects(s: Session, e: Event) {
    && e.ClientReady? && e.rd.Some? && s.clientInterest.Watch? && s.flags.isFresh
    && Taken(e.rd.value, Room(s.toMember)) != []
  }

  /** The request in the client buffer, old bytes behind the used part included. */
  function RequestIn(s: Session, e: Event, stale: seq<Byte>): Request
    requires Selects(s, e)
  {
    Parse(s.toMember + Taken(e.rd.value, Room(s.toMember)) + stale)
  }

  /** The request a selection goes by; only HASH and STATIC look at it. */
  function RequestFor(b: Balancer, s: Session, e: Event, stale: seq<Byte>): Request
    requires Selects(s, e)
  {
    if ChoosesAtAccept(b) then NotHttp else RequestIn(s, e, stale)
  }

  function WithPick(e: Event, p: Pick): Event {
    match e
    case ClientReady(rd, wr, _) => ClientReady(rd, wr, p)
    case _ => e
  }

  /** The connection counter of one server goes up and down. */
  function Credit(v: Servers, i: nat, up: nat, down: nat): Servers {
    AtSlot(v, i, (s: Server) => s.(c := s.c + up - down))
  }

  function Settle(b: Balancer, o: Outcome): Balancer {
    b.(members := Credit(b.members, o.s.member, o.fx.memberJoins, o.fx.memberDrops),
       clones := Credit(b.clones, o.s.clone, o.fx.cloneJoins, o.fx.cloneDrops))
  }

  predicate ChoosesAtAccept(b: Balancer) {
    b.algorithm != Hash && b.algorithm != Static
  }

  predicate Possible(w: World, step: Step) {
    match step
    case Accept(i, _, _, _) => i < |w.sessions|
    case Handle(i, e, _, stale) =>
      i < |w.sessions| && (Selects(w.sessions[i], e) ==> RequestFor(w.b, w.sessions[i], e, stale) != Undefined)
    case Other(shared) => SharedPossible(w.b, shared)
  }

  /** The selection a step makes, if any. */
  function SelectionOf(w: World, step: Step): Option<Selected>
    requires RegistryOk(w.b) && Possible(w, step)
  {
    match step
    case Accept(i, _, watched, _) => if watched && ChoosesAtAccept(w.b) then Choose(w.b, NotHttp) else None
    case Handle(i, e, _, stale) =>
      if Selects(w.sessions[i], e) then Choose(w.b, RequestFor(w.b, w.sessions[i], e, stale)) else None
    case Other(_) => None
  }

  /** What a step of the master does to its session. */
  function OutcomeOf(w: World, step: Step): Outcome
    requires RegistryOk(w.b) && Possible(w, step) && !step.Other?
  {
    match step
    case Accept(i, fd, watched, env) =>
      Relay.Accept(w.sessions[i], fd, watched, w.setsFresh, ChoosesAtAccept(w.b), PickFrom(SelectionOf(w, step), env))
    case Handle(i, e, env, _) =>
      Dispatch(w.sessions[i], WithPick(e, PickFrom(SelectionOf(w, step), env)))
  }

  function Next(w: World, step: Step): World
    requires RegistryOk(w.b) && SettingsOk(w.b) && Possible(w, step)
  {
    if step.Other? then w.(b := Shared(w.b, step.shared))
    else
      var o := OutcomeOf(w, step);
      var sel := SelectionOf(w, step);
      w.(b := Settle(if sel.Some? then sel.value.b else w.b, o), sessions := w.sessions[step.i := o.s])
  }

  // ----- reference counts

  function MemberOf(s: Session): int {
    if s.flags.memConnected then s.member else -1
  }

  function CloneOf(s: Session): int {
    if s.flags.cloConnected then s.clone else -1
  }

  function Members(sessions: seq<Session>): seq<int> {
    seq(|sessions|, i requires 0 <= i < |sessions| => MemberOf(sessions[i]))
  }

  function Clones(sessions: seq<Session>): seq<int> {
    seq(|sessions|, i requires 0 <= i < |sessions| => CloneOf(sessions[i]))
  }

  /** The counter of every server is the number of sessions connected to it, and sessions
      are connected to servers in use only. */
  predicate CountsOk(v: Servers, owners: seq<int>) {
    && |v.slots| == MAXSERVERS
    && (forall m :: 0 <= m < MAXSERVERS ==> v.slots[m].c == Count(owners, m))
    && (forall i :: 0 <= i < |owners| ==> -1 <= owners[i] < MAXSERVERS)
  }

  predicate Inv(w: World) {
    && RegistryOk(w.b) && SettingsOk(w.b)
    && (forall i :: 0 <= i < |w.sessions| ==> Anchored(w.sessions[i]))
    && CountsOk(w.b.members, Members(w.sessions)) && CountsOk(w.b.clones, Clones(w.sessions))
  }

  /** One session changes its server, and the counters follow. */
  lemma {:induction false} CreditFollows(v: Servers, owners: seq<int>, i: nat, slot: nat, up: nat, down: nat, owner: int)
    requires SlotsOk(v) && CountsOk(v, owners) && i < |owners|
    requires owner == -1 || owner == slot
    requires up + (if owners[i] == -1 then 0 else 1) == down + (if owner == -1 then 0 else 1)
    requires owners[i] != -1 ==> up == 0 && slot == owners[i]
    requires up > 0 ==> slot < MAXSERVERS && v.slots[slot].status != Free
    ensures SlotsOk(Credit(v, slot, up, down)) && CountsOk(Credit(v, slot, up, down), owners[i := owner])
  {
    var w := Credit(v, slot, up, down);
    if owners[i] != -1 { CountBound(owners, owners[i]); }
    forall m | 0 <= m < MAXSERVERS ensures w.slots[m].c == Count(owners[i := owner], m) {
      CountUpdate(owners, i, owner, m);
    }
  }

  lemma {:induction false} CreditKeepsHash(v: Servers, table: seq<int>, slot: nat, up: nat, down: nat)
    requires HashOk(v, table)
    ensures HashOk(Credit(v, slot, up, down), table)
  {
    var w := Credit(v, slot, up, down);
    forall k | 0 <= k < |table| && table[k] != HASH_VAL_FREE ensures w.slots[table[k]].status != Free {
      assert v.slots[table[k]].status != Free;
    }
    hide Count;
  }

  /** A selection leaves counters and statuses alone and picks servers in use. */
  predicate GoodSelection(b: Balancer, sel: Option<Selected>) {
    sel.Some? ==>
      && RegistryOk(sel.value.b) && SettingsOk(sel.value.b) && OnlyUsage(b.members, sel.value.b.members)
      && sel.value.b.clones == b.clones && Sound(b, sel.value.k)
  }

  lemma {:induction false} SelectionIsGood(w: World, step: Step)
    requires RegistryOk(w.b) && SettingsOk(w.b) && Possible(w, step)
    ensures GoodSelection(w.b, SelectionOf(w, step))
  {
    hide Choose, RegistryOk, Sound;
    match step
    case Accept(i, _, watched, _) =>
      SelectionSound(w.b, NotHttp);
      if Choose(w.b, NotHttp).Some? { ChooseKeepsOk(w.b, NotHttp); }
    case Handle(i, e, _, stale) =>
      if Selects(w.sessions[i], e) {
        var req := RequestFor(w.b, w.sessions[i], e, stale);
        SelectionSound(w.b, req);
        if Choose(w.b, req).Some? { ChooseKeepsOk(w.b, req); }
      }
    case Other(_) =>
  }

  /** What a step does to its session is counted, and what it joins was selected. */
  lemma {:induction false} OutcomeIsCounted(w: World, step: Step)
    requires RegistryOk(w.b) && Possible(w, step) && !step.Other? && Anchored(w.sessions[step.i])
    ensures Counted(w.sessions[step.i], OutcomeOf(w, step))
    ensures JoinsPick(OutcomeOf(w, step), PickFrom(SelectionOf(w, step), step.env))
  {
    var p := PickFrom(SelectionOf(w, step), step.env);
    hide Counted, JoinsPick, PickFrom, SelectionOf, Dispatch, Relay.Accept, Anchored;
    match step
    case Accept(i, fd, watched, _) =>
      AcceptCounted(w.sessions[i], fd, watched, w.setsFresh, ChoosesAtAccept(w.b), p);
    case Handle(i, e, _, _) =>
      DispatchCounted(w.sessions[i], WithPick(e, p));
      NoPickNoJoin(Dispatch(w.sessions[i], WithPick(e, p)), WithPick(e, p), p);
  }

  lemma {:induction false} NoPickNoJoin(o: Outcome, e: Event, p: Pick)
    requires JoinsPick(o, PickOf(e)) && (e.ClientReady? ==> e.pick == p)
    ensures JoinsPick(o, p)
  {
  }

  lemma {:induction false} OwnersUpdate(sessions: seq<Session>, i: nat, s: Session)
    requires i < |sessions|
    ensures Members(sessions[i := s]) == Members(sessions)[i := MemberOf(s)]
    ensures Clones(sessions[i := s]) == Clones(sessions)[i := CloneOf(s)]
  {
  }

  lemma {:induction false} UsageIsNoConnection(v: Servers, w: Servers, owners: seq<int>)
    requires SlotsOk(v) && CountsOk(v, owners) && (w == v || OnlyUsage(v, w))
    ensures SlotsOk(w) && CountsOk(w, owners)
  {
    hide Count;
  }

  /** The members' half of a master step. */
  lemma {:induction false} MembersSettled(w: World, step: Step)
    requires Inv(w) && Possible(w, step) && !step.Other?
    ensures var sel := SelectionOf(w, step);
      var v := (if sel.Some? then sel.value.b else w.b).members;
      var o := OutcomeOf(w, step);
      var v' := Credit(v, o.s.member, o.fx.memberJoins, o.fx.memberDrops);
      SlotsOk(v') && CountsOk(v', Members(w.sessions)[step.i := MemberOf(o.s)])
  {
    SelectionIsGood(w, step);
    OutcomeIsCounted(w, step);
    var sel := SelectionOf(w, step);
    var v := (if sel.Some? then sel.value.b else w.b).members;
    var o := OutcomeOf(w, step);
    hide SelectionOf, OutcomeOf, Count, HashOk, SlotsOk, CountsOk, Credit;
    UsageIsNoConnection(w.b.members, v, Members(w.sessions));
    CreditFollows(v, Members(w.sessions), step.i, o.s.member, o.fx.memberJoins, o.fx.memberDrops, MemberOf(o.s));
  }

  lemma {:induction false} ClonesSettled(w: World, step: Step)
    requires Inv(w) && Possible(w, step) && !step.Other?
    ensures var o := OutcomeOf(w, step);
      var v' := Credit(w.b.clones, o.s.clone, o.fx.cloneJoins, o.fx.cloneDrops);
      SlotsOk(v') && CountsOk(v', Clones(w.sessions)[step.i := CloneOf(o.s)])
  {
    SelectionIsGood(w, step);
    OutcomeIsCounted(w, step);
    var o := OutcomeOf(w, step);
    hide SelectionOf, OutcomeOf, Count, HashOk;
    CreditFollows(w.b.clones, Clones(w.sessions), step.i, o.s.clone, o.fx.cloneJoins, o.fx.cloneDrops, CloneOf(o.s));
  }

  lemma {:induction false} SettleKeepsRegistry(b: Balancer, o: Outcome)
    requires RegistryOk(b) && SlotsOk(Settle(b, o).members) && SlotsOk(Settle(b, o).clones)
    ensures RegistryOk(Settle(b, o))
  {
    hide SlotsOk, HashOk;
    CreditKeepsHash(b.members, b.table, o.s.member, o.fx.memberJoins, o.fx.memberDrops);
  }

  lemma {:induction false} MasterKeepsRegistry(w: World, step: Step)
    requires Inv(w) && Possible(w, step) && !step.Other?
    ensures RegistryOk(Next(w, step).b) && SettingsOk(Next(w, step).b)
  {
    SelectionIsGood(w, step);
    MembersSettled(w, step);
    ClonesSettled(w, step);
    hide SelectionOf, OutcomeOf, RegistryOk, SlotsOk, CountsOk, Credit, Sound, OnlyUsage, Members, Clones;
    var sel := SelectionOf(w, step);
    SettleKeepsRegistry(if sel.Some? then sel.value.b else w.b, OutcomeOf(w, step));
  }

  lemma {:induction false} MasterKeepsCounts(w: World, step: Step)
    requires Inv(w) && Possible(w, step) && !step.Other?
    ensures var w' := Next(w, step);
      CountsOk(w'.b.members, Members(w'.sessions)) && CountsOk(w'.b.clones, Clones(w'.sessions))
  {
    SelectionIsGood(w, step);
    MembersSettled(w, step);
    ClonesSettled(w, step);
    OwnersUpdate(w.sessions, step.i, OutcomeOf(w, step).s);
    hide SelectionOf, OutcomeOf, Count, RegistryOk, SlotsOk, CountsOk, Credit, Sound, OnlyUsage, Members, Clones;
  }

  lemma {:induction false} MasterKeepsInv(w: World, step: Step)
    requires Inv(w) && Possible(w, step) && !step.Other?
    ensures Inv(Next(w, step))
  {
    MasterKeepsRegistry(w, step);
    MasterKeepsCounts(w, step);
    OutcomeIsCounted(w, step);
    hide SelectionOf, OutcomeOf, RegistryOk, CountsOk, Settle, Members, Clones, SettingsOk, Anchored;
    assert Anchored(OutcomeOf(w, step).s);
  }

  /** In every interleaving of master, admin and monitor, one step keeps the invariant. */
  lemma {:induction false} StepKeepsInv(w: World, step: Step)
    requires Inv(w) && Possible(w, step)
    ensures Inv(Next(w, step))
  {
    if step.Other? {
      SharedKeeps(w.b, step.shared);
      hide Shared, RegistryOk, Count;
    } else {
      hide Inv, Next;
      MasterKeepsInv(w, step);
    }
  }

  // ----- runs

  /** A new session, as initialize_sessions makes it. */
  const NEW_SESSION := Session(STATE_UNUSED, -1, -1, -1, [], [], [], 0, 0, Closed, Closed, Closed)

  /** The system at startup, before any server is created. */
  function Start(sessions: nat, setsFresh: bool): World {
    World(InitialBalancer(), seq(sessions, _ => NEW_SESSION), setsFresh)
  }

  lemma {:induction false} StartOk(sessions: nat, setsFresh: bool)
    ensures Inv(Start(sessions, setsFresh))
  {
    InitialOk();
    var w := Start(sessions, setsFresh);
    forall m | 0 <= m < MAXSERVERS ensures Count(Members(w.sessions), m) == 0 && Count(Clones(w.sessions), m) == 0 {
      CountNone(Members(w.sessions), m);
      CountNone(Clones(w.sessions), m);
    }
    hide Count;
  }

  /** Some sequence of steps leads from w to w'. */
  ghost predicate Runs(w: World, steps: seq<Step>, w': World)
    requires Inv(w)
    decreases |steps|
  {
    if steps == [] then w' == w
    else Possible(w, steps[0]) && (StepKeepsInv(w, steps[0]); Runs(Next(w, steps[0]), steps[1..], w'))
  }

  lemma {:induction false} RunsBefore(w: World, step: Step, steps: seq<Step>, w': World)
    requires Inv(w) && Possible(w, step) && Inv(Next(w, step)) && Runs(Next(w, step), steps, w')
    ensures Runs(w, [step] + steps, w')
  {
    hide Inv, Next, Possible;
    assert ([step] + steps)[1..] == steps;
  }

  lemma {:induction false} RunKeepsInv(w: World, steps: seq<Step>, w': World)
    requires Inv(w) && Runs(w, steps, w')
    ensures Inv(w')
    decreases |steps|
  {
    if steps != [] {
      StepKeepsInv(w, steps[0]);
      hide Inv, Next;
      RunKeepsInv(Next(w, steps[0]), steps[1..], w');
    }
  }

  /** Every connected session points at a slot in range that is in use and counts it. */
  predicate SafeReferences(w: World) {
    && |w.b.members.slots| == MAXSERVERS && |w.b.clones.slots| == MAXSERVERS
    && (forall i :: 0 <= i < |w.sessions| && w.sessions[i].flags.memConnected ==> InUse(w.b.members, w.sessions[i].member))
    && (forall i :: 0 <= i < |w.sessions| && w.sessions[i].flags.cloConnected ==> InUse(w.b.clones, w.sessions[i].clone))
  }

  predicate InUse(v: Servers, m: nat) {
    m < v.count && m < |v.slots| && v.slots[m].status != Free && v.slots[m].c > 0
  }

  lemma {:induction false} OwnersAreInUse(v: Servers, owners: seq<int>, i: nat)
    requires SlotsOk(v) && CountsOk(v, owners) && i < |owners| && owners[i] != -1
    ensures InUse(v, owners[i])
  {
    CountBound(owners, owners[i]);
    hide Count;
  }

  lemma {:induction false} InvIsSafe(w: World)
    requires Inv(w)
    ensures SafeReferences(w)
  {
    hide SlotsOk, HashOk, Count, InUse;
    assert |w.b.members.slots| == MAXSERVERS && |w.b.clones.slots| == MAXSERVERS;
    forall i | 0 <= i < |w.sessions| && w.sessions[i].flags.memConnected
      ensures InUse(w.b.members, w.sessions[i].member)
    {
      assert Members(w.sessions)[i] == w.sessions[i].member;
      OwnersAreInUse(w.b.members, Members(w.sessions), i);
    }
    forall i | 0 <= i < |w.sessions| && w.sessions[i].flags.cloConnected
      ensures InUse(w.b.clones, w.sessions[i].clone)
    {
      assert Clones(w.sessions)[i] == w.sessions[i].clone;
      OwnersAreInUse(w.b.clones, Clones(w.sessions), i);
    }
  }

  /** Some sequence of steps leads from startup to w. */
  ghost predicate Reachable(sessions: nat, setsFresh: bool, steps: seq<Step>, w: World) {
    StartOk(sessions, setsFresh);
    Runs(Start(sessions, setsFresh), steps, w)
  }

  /** Reference-count safety. In every interleaving of steps from startup, the counter of
      every server equals the number of sessions connected to it, and no connected session
      points at a free or out-of-range slot. */
  lemma {:induction false} ReferenceCountSafety(sessions: nat, setsFresh: bool, steps: seq<Step>, w: World)
    requires Reachable(sessions, setsFresh, steps, w)
    ensures CountsOk(w.b.members, Members(w.sessions)) && CountsOk(w.b.clones, Clones(w.sessions))
    ensures SafeReferences(w)
  {
    StartOk(sessions, setsFresh);
    RunKeepsInv(Start(sessions, setsFresh), steps, w);
    hide Runs, SafeReferences, CountsOk, RegistryOk;
    InvIsSafe(w);
  }

  /** Hash accounting. In every interleaving from startup, each usage counter equals the
      number of entries naming the member, fits its 16 bits, and every assigned entry names
      a member in use; the registry invariant holds as well. */
  lemma {:induction false} HashAccounting(sessions: nat, setsFresh: bool, steps: seq<Step>, w: World, m: nat)
    requires Reachable(sessions, setsFresh, steps, w) && m < MAXSERVERS
    ensures SlotsOk(w.b.members) && SlotsOk(w.b.clones) && HashOk(w.b.members, w.b.table)
    ensures w.b.members.slots[m].usage == Count(w.b.table, m) < SHORT
  {
    StartOk(sessions, setsFresh);
    RunKeepsInv(Start(sessions, setsFresh), steps, w);
    hide Runs, CountsOk;
    CountBound(w.b.table, m);
  }

  /** The members or the clones. */
  function Side(b: Balancer, clone: bool): Servers {
    if clone then b.clones else b.members
  }

  /** The session is connected to member m, or to clone m. */
  predicate Uses(s: Session, clone: bool, m: nat) {
    if clone then s.flags.cloConnected && s.clone == m else s.flags.memConnected && s.member == m
  }

  /** When a slot is free after a step, no session is connected to it, and when another
      process has freed it, none was. */
  lemma {:induction false} FreedSlotsAreUnreferenced(w: World, step: Step, clone: bool, m: nat)
    requires Inv(w) && Possible(w, step) && m < MAXSERVERS
    requires m < |Side(Next(w, step).b, clone).slots| && Side(Next(w, step).b, clone).slots[m].status == Free
    ensures forall i :: 0 <= i < |Next(w, step).sessions| ==> !Uses(Next(w, step).sessions[i], clone, m)
    ensures step.Other? ==> forall i :: 0 <= i < |w.sessions| ==> !Uses(w.sessions[i], clone, m)
  {
    StepKeepsInv(w, step);
    hide Inv;
    InvIsSafe(Next(w, step));
    if step.Other? { assert Next(w, step).sessions == w.sessions; }
    hide Shared, OutcomeOf, SelectionOf, Settle;
  }

  // ----- allocation discipline and the sessions themselves

  /** The allocation hands out unused sessions only. */
  predicate Disciplined(w: World, step: Step) {
    step.Accept? && step.i < |w.sessions| ==> Dead(w.sessions[step.i])
  }

  predicate SessionsOk(w: World) {
    forall i :: 0 <= i < |w.sessions| ==> SessionOk(w.sessions[i])
  }

  ghost predicate DisciplinedRun(w: World, steps: seq<Step>, w': World)
    requires Inv(w)
    decreases |steps|
  {
    if steps == [] then w' == w
    else
      Possible(w, steps[0]) && Disciplined(w, steps[0]) &&
      (StepKeepsInv(w, steps[0]); DisciplinedRun(Next(w, steps[0]), steps[1..], w'))
  }

  lemma {:induction false} StepKeepsSessions(w: World, step: Step)
    requires Inv(w) && Possible(w, step) && Disciplined(w, step) && SessionsOk(w)
    ensures SessionsOk(Next(w, step))
  {
    if !step.Other? {
      var p := PickFrom(SelectionOf(w, step), step.env);
      hide SelectionOf, PickFrom, Settle, Inv, SessionOk, Dispatch, Relay.Accept;
      assert SessionOk(w.sessions[step.i]);
      match step
      case Accept(i, fd, watched, _) =>
        AcceptKeepsOk(w.sessions[i], fd, watched, w.setsFresh, ChoosesAtAccept(w.b), p);
      case Handle(i, e, _, _) =>
        DispatchKeepsOk(w.sessions[i], WithPick(e, p));
    }
  }

  /** With a free list that hands out unused sessions only, every session is coupled, in
      every run of the whole system. */
  lemma {:induction false} SessionsStayCoupled(w: World, steps: seq<Step>, w': World)
    requires Inv(w) && SessionsOk(w) && DisciplinedRun(w, steps, w')
    ensures SessionsOk(w')
    decreases |steps|
  {
    if steps != [] {
      StepKeepsInv(w, steps[0]);
      StepKeepsSessions(w, steps[0]);
      hide Inv, Next, SessionsOk;
      SessionsStayCoupled(Next(w, steps[0]), steps[1..], w');
    }
  }

  // ----- sessions that are lost for good

  /** A session with a left-over descriptor is lost for good: in every run of the whole
      system, whoever is accepted into it, it never has a member again; and with a left-over
      clone descriptor never a clone. */
  lemma {:induction false} StaleForever(w: World, steps: seq<Step>, w': World, i: nat)
    requires Inv(w) && Runs(w, steps, w') && i < |w.sessions|
    ensures |w'.sessions| == |w.sessions|
    ensures Stale(w.sessions[i]) ==> Stale(w'.sessions[i])
    ensures StaleClone(w.sessions[i]) ==> StaleClone(w'.sessions[i])
    decreases |steps|
  {
    if steps != [] {
      StepKeepsInv(w, steps[0]);
      StepKeepsStale(w, steps[0], i);
      hide Inv, Next, Stale, StaleClone;
      StaleForever(Next(w, steps[0]), steps[1..], w', i);
    }
  }

  lemma {:induction false} StepKeepsStale(w: World, step: Step, i: nat)
    requires Inv(w) && Possible(w, step) && i < |w.sessions|
    ensures |Next(w, step).sessions| == |w.sessions|
    ensures Stale(w.sessions[i]) ==> Stale(Next(w, step).sessions[i])
    ensures StaleClone(w.sessions[i]) ==> StaleClone(Next(w, step).sessions[i])
  {
    if !step.Other? {
      var p := PickFrom(SelectionOf(w, step), step.env);
      hide SelectionOf, PickFrom, Settle, Inv, Dispatch, Relay.Accept, Stale, StaleClone;
      match step
      case Accept(k, fd, watched, _) =>
        AcceptStale(w.sessions[k], fd, watched, w.setsFresh, ChoosesAtAccept(w.b), p);
      case Handle(k, e, _, _) =>
        DispatchStale(w.sessions[k], WithPick(e, p));
    }
  }

  // ----- connection limits

  /** No server has more connections than its limit allows. */
  predicate WithinLimit(s: Server) {
    s.c <= 0 || s.c <= s.maxc
  }

  predicate WithinLimits(v: Servers) {
    forall i :: 0 <= i < |v.slots| ==> WithinLimit(v.slots[i])
  }

  lemma {:induction false} CreditWithinLimits(v: Servers, slot: nat, up: nat, down: nat)
    requires WithinLimits(v) && up <= 1
    requires up > 0 ==> HasSpare(v, slot)
    ensures WithinLimits(Credit(v, slot, up, down))
  {
  }

  /** What a step joins was selected and had room. */
  lemma {:induction false} JoinsWithinLimits(w: World, step: Step)
    requires Inv(w) && Possible(w, step) && !step.Other?
    ensures var o := OutcomeOf(w, step);
      && o.fx.memberJoins <= 1 && o.fx.cloneJoins <= 1
      && (o.fx.memberJoins > 0 ==> HasSpare(w.b.members, o.s.member))
      && (o.fx.cloneJoins > 0 ==> HasSpare(w.b.clones, o.s.clone))
  {
    SelectionIsGood(w, step);
    OutcomeIsCounted(w, step);
    hide SelectionOf, OutcomeOf, RegistryOk, CountsOk, Counted, OnlyUsage;
  }

  predicate HasSpare(v: Servers, slot: nat) {
    slot < |v.slots| && v.slots[slot].c < v.slots[slot].maxc
  }

  lemma {:induction false} UsageKeepsLimits(v: Servers, w: Servers, slot: nat)
    requires OnlyUsage(v, w) && WithinLimits(v)
    ensures WithinLimits(w) && (HasSpare(v, slot) ==> HasSpare(w, slot))
  {
  }

  lemma {:induction false} MasterKeepsLimits(w: World, step: Step)
    requires Inv(w) && Possible(w, step) && !step.Other?
    requires WithinLimits(w.b.members) && WithinLimits(w.b.clones)
    ensures WithinLimits(Next(w, step).b.members) && WithinLimits(Next(w, step).b.clones)
  {
    SelectionIsGood(w, step);
    JoinsWithinLimits(w, step);
    var sel := SelectionOf(w, step);
    var b := if sel.Some? then sel.value.b else w.b;
    var o := OutcomeOf(w, step);
    hide SelectionOf, OutcomeOf, RegistryOk, Credit, Inv, Sound, OnlyUsage, WithinLimits, HasSpare;
    if sel.Some? { UsageKeepsLimits(w.b.members, b.members, o.s.member); }
    CreditWithinLimits(b.members, o.s.member, o.fx.memberJoins, o.fx.memberDrops);
    CreditWithinLimits(b.clones, o.s.clone, o.fx.cloneJoins, o.fx.cloneDrops);
  }

  /** A change that leaves limits and counts alone, or blanks a slot. */
  predicate SameLimits(v: Servers, v': Servers) {
    && |v.slots| == |v'.slots|
    && forall i :: 0 <= i < |v.slots| ==>
         v'.slots[i].c == v.slots[i].c && (v'.slots[i].maxc == v.slots[i].maxc || v'.slots[i].c == 0)
  }

  lemma {:induction false} SlotwiseLimits(v: Servers, i: nat, k: int, f: Server -> Server)
    requires forall s: Server :: f(s).c == s.c && f(s).maxc == s.maxc
    ensures SameLimits(v, OnOne(v, k, f)) && SameLimits(v, OnAll(v, f))
    ensures SameLimits(v, AtSlot(v, i, f)) && SameLimits(v, OnCount(v, f)) && SameLimits(v, v)
  {
  }

  lemma {:induction false} CreateLimits(v: Servers, s: Server)
    requires SlotsOk(v) && HasRoom(v) && s.c == 0 && s.usage == 0
    ensures SameLimits(v, Create(v, s))
  {
    CreateKeeps(v, s);
  }

  lemma {:induction false} PassesKeepLimits(b: Balancer, step: SharedStep)
    requires RegistryOk(b) && SettingsOk(b) && SharedPossible(b, step)
    requires step.ReapPass? || step.RebalancePass?
    ensures SameLimits(b.members, Shared(b, step).members) && SameLimits(b.clones, Shared(b, step).clones)
  {
    if step.ReapPass? {
      ReapMembersKeeps(b.members, b.table, 0);
      ReapClonesKeeps(b.clones, 0);
      hide ReapMembers, ReapClones, HashOk, SlotsOk;
    } else {
      RebalanceKeepsOk(b, step.sorted);
      RebalanceKeepsRest(b, step.sorted);
      hide Rebalance, HashOk, SlotsOk;
    }
  }

  lemma {:induction false} CommandsKeepLimits(b: Balancer, step: SharedStep)
    requires RegistryOk(b) && SettingsOk(b) && SharedPossible(b, step)
    requires step.AllCommand? || (step.OneCommand? && !step.cmd.MaxC?)
    ensures SameLimits(b.members, Shared(b, step).members) && SameLimits(b.clones, Shared(b, step).clones)
  {
    var cmd := step.cmd;
    var f := (s: Server) => Apply(cmd, s);
    var target := if step.OneCommand? then step.target else 0;
    SlotwiseLimits(b.members, 0, target, f);
    SlotwiseLimits(b.clones, 0, target, f);
    hide OnOne, OnAll, SameLimits, SlotsOk, HashOk, Apply, ClonedState, Manageable;
  }

  lemma {:induction false} ChecksKeepLimits(b: Balancer, step: SharedStep)
    requires RegistryOk(b) && SettingsOk(b) && SharedPossible(b, step)
    requires step.ProbeServer? || step.SampleLoad? || step.LoadPass?
    ensures SameLimits(b.members, Shared(b, step).members) && SameLimits(b.clones, Shared(b, step).clones)
  {
    match step
    case ProbeServer(clone, slot, alive) =>
      var f := (s: Server) => Probe(s, alive);
      SlotwiseLimits(b.members, slot, 0, f);
      SlotwiseLimits(b.clones, slot, 0, f);
      hide AtSlot, SameLimits, SlotsOk, HashOk, ClonedState;
    case SampleLoad(clone, slot, load) =>
      var f := (s: Server) => if s.status == Enabled || s.status == Disabled then s.(load := load) else s;
      SlotwiseLimits(b.members, slot, 0, f);
      SlotwiseLimits(b.clones, slot, 0, f);
      hide AtSlot, SameLimits, SlotsOk, HashOk;
    case LoadPass =>
      SlotwiseLimits(b.members, 0, 0, EffectiveLoad);
      SlotwiseLimits(b.clones, 0, 0, EffectiveCloneLoad);
      hide OnCount, SameLimits, SlotsOk, HashOk;
  }

  lemma {:induction false} SharedKeepsLimits(b: Balancer, step: SharedStep)
    requires RegistryOk(b) && SettingsOk(b) && SharedPossible(b, step)
    requires !(step.OneCommand? && step.cmd.MaxC?)
    ensures SameLimits(b.members, Shared(b, step).members) && SameLimits(b.clones, Shared(b, step).clones)
  {
    match step
    case CreateServer(clone, status, standby, maxc, maxl) =>
      var s := NewServer(status, standby, maxc, maxl);
      if clone { CreateLimits(b.clones, s); } else { CreateLimits(b.members, s); }
      hide Create, SlotsOk, HashOk;
    case OneCommand(_, _, _) => hide Shared; CommandsKeepLimits(b, step);
    case AllCommand(_) => hide Shared; CommandsKeepLimits(b, step);
    case Configure(_, _, _, _, _) =>
    case SetCloning(_) => hide ClonedState;
    case ReapPass => hide Shared; PassesKeepLimits(b, step);
    case RebalancePass(_) => hide Shared; PassesKeepLimits(b, step);
    case _ => hide Shared; ChecksKeepLimits(b, step);
  }

  /** A change of one limit keeps this exactly when the new limit is not below the count. */
  lemma {:induction false} LimitChange(b: Balancer, clone: bool, target: int, n: int)
    requires RegistryOk(b) && SettingsOk(b) && WithinLimits(Side(b, clone)) && Manageable(Side(b, clone), target)
    ensures var b' := Shared(b, OneCommand(clone, target, MaxC(n)));
      && Side(b', !clone) == Side(b, !clone)
      && (WithinLimits(Side(b', clone)) <==> WithinLimit(Side(b, clone).slots[target].(maxc := n)))
  {
    hide HashOk, SlotsOk;
    var before := Side(b, clone);
    var v := Side(Shared(b, OneCommand(clone, target, MaxC(n))), clone);
    var s := before.slots[target].(maxc := n);
    assert v.slots == before.slots[target := s];
    assert v.slots[target] == s;
    forall i | 0 <= i < |v.slots| && i != target ensures WithinLimit(v.slots[i]) {
      assert v.slots[i] == before.slots[i];
    }
  }

  /** The step changes a connection limit. */
  predicate ChangesLimit(step: Step) {
    step.Other? && step.shared.OneCommand? && step.shared.cmd.MaxC?
  }

  /** With fixed limits the number of connections of a server never exceeds its limit. */
  lemma {:induction false} LimitsKept(w: World, step: Step)
    requires Inv(w) && Possible(w, step) && !ChangesLimit(step)
    requires WithinLimits(w.b.members) && WithinLimits(w.b.clones)
    ensures WithinLimits(Next(w, step).b.members) && WithinLimits(Next(w, step).b.clones)
  {
    if !step.Other? {
      hide Inv, Next, WithinLimits;
      MasterKeepsLimits(w, step);
    } else {
      hide RegistryOk, Shared, CountsOk;
      SharedKeepsLimits(w.b, step.shared);
    }
  }

  /** Limits respected, in every run that does not change them. */
  lemma {:induction false} LimitsInRuns(w: World, steps: seq<Step>, w': World)
    requires Inv(w) && Runs(w, steps, w') && WithinLimits(w.b.members) && WithinLimits(w.b.clones)
    requires forall j :: 0 <= j < |steps| ==> !ChangesLimit(steps[j])
    ensures WithinLimits(w'.b.members) && WithinLimits(w'.b.clones)
    decreases |steps|
  {
    if steps != [] {
      StepKeepsInv(w, steps[0]);
      LimitsKept(w, steps[0]);
      hide Inv, Next, WithinLimits, Possible;
      LimitsInRuns(Next(w, steps[0]), steps[1..], w');
    }
  }

  // ----- deletion

  /** Deleted still, or freed with no connection left. */
  predicate DeletedOrFreed(v: Servers, v': Servers, m: nat)
    requires m < |v.slots|
  {
    StillDeleted(v', m) || (m < |v'.slots| && v'.slots[m] == BLANK && v.slots[m].c == 0)
  }

  /** A deleted server, member or clone, stays deleted until it is freed, whatever step is
      taken, and it is freed only with no connection left. */
  lemma {:induction false} DeletedOnlyFreed(w: World, step: Step, clone: bool, m: nat)
    requires Inv(w) && Possible(w, step) && StillDeleted(Side(w.b, clone), m)
    ensures DeletedOrFreed(Side(w.b, clone), Side(Next(w, step).b, clone), m)
  {
    if step.Other? {
      hide CountsOk, Shared, RegistryOk;
      SharedDeletedOnlyFreed(w.b, step.shared, clone, m);
    } else {
      SelectionIsGood(w, step);
      var sel := SelectionOf(w, step);
      var o := OutcomeOf(w, step);
      hide SelectionOf, OutcomeOf, Sound, CountsOk, RegistryOk, Credit, Inv;
      var b := if sel.Some? then sel.value.b else w.b;
      assert StillDeleted(Side(b, clone), m);
      if clone {
        CreditOnDeleted(b.clones, m, o.s.clone, o.fx.cloneJoins, o.fx.cloneDrops);
      } else {
        CreditOnDeleted(b.members, m, o.s.member, o.fx.memberJoins, o.fx.memberDrops);
      }
    }
  }

  lemma {:induction false} CreditOnDeleted(v: Servers, m: nat, slot: nat, up: nat, down: nat)
    requires StillDeleted(v, m)
    ensures StillDeleted(Credit(v, slot, up, down), m)
  {
  }

  predicate StillDeleted(v: Servers, m: nat) {
    m < |v.slots| && v.slots[m].status == Deleted
  }

  lemma {:induction false} SlotwiseDeleted(v: Servers, m: nat, i: nat, k: int, f: Server -> Server)
    requires StillDeleted(v, m) && forall s: Server :: s.status == Deleted ==> f(s).status == Deleted
    ensures StillDeleted(OnOne(v, k, f), m) && StillDeleted(OnAll(v, f), m)
    ensures StillDeleted(AtSlot(v, i, f), m) && StillDeleted(OnCount(v, f), m)
  {
    DeletedStaysDeleted(v, m, k, true);
  }

  lemma {:induction false} SharedDeletedOnlyFreed(b: Balancer, step: SharedStep, clone: bool, m: nat)
    requires RegistryOk(b) && SettingsOk(b) && SharedPossible(b, step) && StillDeleted(Side(b, clone), m)
    ensures DeletedOrFreed(Side(b, clone), Side(Shared(b, step), clone), m)
  {
    var v := Side(b, clone);
    match step
    case CreateServer(there, status, standby, maxc, maxl) =>
      if there == clone { CreateKeeps(v, NewServer(status, standby, maxc, maxl)); }
      hide HashOk;
    case OneCommand(_, target, cmd) =>
      CommandOnDeleted(v, m, target, cmd);
      hide OnOne, SlotsOk, HashOk;
    case AllCommand(cmd) =>
      SlotwiseDeleted(v, m, 0, 0, (s: Server) => Apply(cmd, s));
      hide OnAll, SlotsOk, HashOk;
    case ProbeServer(_, slot, alive) =>
      SlotwiseDeleted(v, m, slot, 0, (s: Server) => Probe(s, alive));
      hide AtSlot, SlotsOk, HashOk;
    case SampleLoad(_, slot, load) =>
      SlotwiseDeleted(v, m, slot, 0,
        (s: Server) => if s.status == Enabled || s.status == Disabled then s.(load := load) else s);
      hide AtSlot, SlotsOk, HashOk;
    case LoadPass =>
      SlotwiseDeleted(v, m, 0, 0, EffectiveLoad);
      SlotwiseDeleted(v, m, 0, 0, EffectiveCloneLoad);
      hide OnCount, SlotsOk, HashOk;
    case ReapPass => hide Shared; PassesDeletedOnlyFree(b, step, clone, m);
    case RebalancePass(_) => hide Shared; PassesDeletedOnlyFree(b, step, clone, m);
    case Configure(_, _, _, _, _) => hide SlotsOk, HashOk;
    case SetCloning(_) => hide SlotsOk, HashOk;
  }

  lemma {:induction false} PassesDeletedOnlyFree(b: Balancer, step: SharedStep, clone: bool, m: nat)
    requires RegistryOk(b) && SettingsOk(b) && SharedPossible(b, step) && StillDeleted(Side(b, clone), m)
    requires step.ReapPass? || step.RebalancePass?
    ensures DeletedOrFreed(Side(b, clone), Side(Shared(b, step), clone), m)
  {
    if step.ReapPass? {
      ReapMembersKeeps(b.members, b.table, 0);
      ReapClonesKeeps(b.clones, 0);
      hide ReapMembers, ReapClones, HashOk, SlotsOk;
    } else {
      RebalanceKeepsOk(b, step.sorted);
      RebalanceKeepsRest(b, step.sorted);
      hide Rebalance, HashOk, SlotsOk;
    }
  }

  /** A deleted server is out of reach of every command. */
  lemma {:induction false} CommandOnDeleted(v: Servers, m: nat, target: int, cmd: Command)
    requires StillDeleted(v, m)
    ensures StillDeleted(OnOne(v, target, (s: Server) => Apply(cmd, s)), m)
  {
    DeletedStaysDeleted(v, m, target, true);
  }

  // ----- HASH affinity

  /** The step brings a request in the bucket, under HASH. */
  predicate Asks(w: World, step: Step, bucket: nat) {
    && step.Handle? && step.i < |w.sessions| && w.b.algorithm == Hash && Selects(w.sessions[step.i], step.e)
    && var req := RequestFor(w.b, w.sessions[step.i], step.e, step.stale);
       req.Resource? && Bucket(req.path) == bucket
  }

  /** The member a bucket is bound to may not be used, although some member may. */
  predicate Unusable(b: Balancer, bucket: nat)
    requires RegistryOk(b) && bucket < HASHTABLESIZE
  {
    Available(b).Some? && Bound(b, Available(b).value, bucket).None?
  }

  /** What can take a bucket from its member: a request in it while the member may not be
      used, the freeing of the member, and a rebalance that reaches this entry. */
  predicate Disturbs(w: World, step: Step, bucket: nat)
    requires Inv(w) && bucket < HASHTABLESIZE && w.b.table[bucket] != HASH_VAL_FREE
  {
    match step
    case Accept(_, _, _, _) => false
    case Handle(_, _, _, _) => Asks(w, step, bucket) && Unusable(w.b, bucket)
    case Other(shared) =>
      match shared
      case ReapPass => Reapable(w.b.members.slots[w.b.table[bucket]])
      case RebalancePass(sorted) =>
        var m := w.b.table[bucket];
        Triggered(w.b, sorted) && sorted[|sorted| - 1].id == m &&
        Count(w.b.table[..bucket], m) < HashesToMove(w.b.members.slots[m].usage, w.b.size)
      case _ => false
  }

  lemma {:induction false} ReapMovesIff(b: Balancer, bucket: nat)
    requires RegistryOk(b) && SettingsOk(b) && bucket < HASHTABLESIZE && b.table[bucket] != HASH_VAL_FREE
    ensures var t := Shared(b, ReapPass).table;
      |t| == HASHTABLESIZE && (t[bucket] == b.table[bucket] <==> !Reapable(b.members.slots[b.table[bucket]]))
  {
    ReapMembersKeeps(b.members, b.table, 0);
    hide ReapMembers, ReapClones, Count, SlotsOk;
  }

  lemma {:induction false} RebalanceMovesIff(b: Balancer, sorted: seq<Server>, bucket: nat)
    requires RegistryOk(b) && SettingsOk(b) && SharedPossible(b, RebalancePass(sorted))
    requires bucket < HASHTABLESIZE && b.table[bucket] != HASH_VAL_FREE
    ensures var t, m := Shared(b, RebalancePass(sorted)).table, b.table[bucket];
      && |t| == HASHTABLESIZE
      && (t[bucket] == m <==>
            !(Triggered(b, sorted) && sorted[|sorted| - 1].id == m &&
              Count(b.table[..bucket], m) < HashesToMove(b.members.slots[m].usage, b.size)))
  {
    SortedIdsInRange(b.members, sorted);
    if Triggered(b, sorted) {
      SortedDistinct(b.members, sorted, 0, |sorted| - 1);
      var low, high := sorted[0].id, sorted[|sorted| - 1].id;
      MoveAt(b.table, high, low, HashesToMove(b.members.slots[high].usage, b.size), bucket);
    }
    hide Count, Move, Transfer, SlotsOk, HashesToMove, SortedByLoad;
  }

  lemma {:induction false} SharedMovesIff(b: Balancer, step: SharedStep, bucket: nat)
    requires RegistryOk(b) && SettingsOk(b) && SharedPossible(b, step) && bucket < HASHTABLESIZE
    requires !step.ReapPass? && !step.RebalancePass?
    ensures Shared(b, step).table == b.table
  {
    hide SlotsOk, HashOk, ClonedState;
  }

  lemma {:induction false} MasterMovesIff(w: World, step: Step, bucket: nat)
    requires Inv(w) && Possible(w, step) && !step.Other? && bucket < HASHTABLESIZE && w.b.table[bucket] != HASH_VAL_FREE
    ensures |Next(w, step).b.table| == HASHTABLESIZE
    ensures Next(w, step).b.table[bucket] == w.b.table[bucket] <==> !Disturbs(w, step, bucket)
  {
    TableSize(w.b);
    var sel := SelectionOf(w, step);
    if step.Handle? && Asks(w, step, bucket) && Unusable(w.b, bucket) {
      UnusableIsReplaced(w.b, RequestFor(w.b, w.sessions[step.i], step.e, step.stale).path);
    } else if sel.Some? {
      var req := if step.Accept? then NotHttp else RequestFor(w.b, w.sessions[step.i], step.e, step.stale);
      ChooseDraws(w.b, req);
      OtherBucketsStay(w.b, req, bucket);
    }
    hide Choose, CountsOk, Settle, OutcomeOf, RegistryOk, Available, Bound;
    SettleKeepsTable(if sel.Some? then sel.value.b else w.b, OutcomeOf(w, step));
  }

  /** A step takes a bucket from its member if and only if it disturbs it. */
  lemma {:induction false} BucketMovesIff(w: World, step: Step, bucket: nat)
    requires Inv(w) && Possible(w, step) && bucket < HASHTABLESIZE && w.b.table[bucket] != HASH_VAL_FREE
    ensures |Next(w, step).b.table| == HASHTABLESIZE
    ensures Next(w, step).b.table[bucket] == w.b.table[bucket] <==> !Disturbs(w, step, bucket)
  {
    if !step.Other? {
      hide Inv, Next, Disturbs;
      MasterMovesIff(w, step, bucket);
    } else {
      TableSize(w.b);
      hide Shared, CountsOk, RegistryOk, Reapable, Triggered, HashesToMove, Count;
      match step.shared
      case ReapPass => ReapMovesIff(w.b, bucket);
      case RebalancePass(sorted) => RebalanceMovesIff(w.b, sorted, bucket);
      case _ => SharedMovesIff(w.b, step.shared, bucket);
    }
  }

  lemma {:induction false} TableSize(b: Balancer)
    requires RegistryOk(b)
    ensures |b.table| == HASHTABLESIZE
  {
  }

  lemma {:induction false} SettleKeepsTable(b: Balancer, o: Outcome)
    ensures Settle(b, o).table == b.table
  {
  }

  /** A run in which no step disturbs the bucket. */
  ghost predicate UndisturbedRun(w: World, steps: seq<Step>, w': World, bucket: nat)
    requires Inv(w) && bucket < HASHTABLESIZE
    decreases |steps|
  {
    if steps == [] then w' == w
    else
      && Possible(w, steps[0]) && w.b.table[bucket] != HASH_VAL_FREE && !Disturbs(w, steps[0], bucket)
      && (StepKeepsInv(w, steps[0]); UndisturbedRun(Next(w, steps[0]), steps[1..], w', bucket))
  }

  /** Every request in the bucket during the run that gets a member gets this one. */
  ghost predicate AllHit(w: World, steps: seq<Step>, bucket: nat, m: nat)
    requires Inv(w)
    decreases |steps|
  {
    steps == [] || !Possible(w, steps[0]) ||
    (&& (Asks(w, steps[0], bucket) && SelectionOf(w, steps[0]).Some? ==> SelectionOf(w, steps[0]).value.k.nextMember == m)
     && (StepKeepsInv(w, steps[0]); AllHit(Next(w, steps[0]), steps[1..], bucket, m)))
  }

  lemma {:induction false} UndisturbedHits(w: World, step: Step, bucket: nat)
    requires Inv(w) && Possible(w, step) && bucket < HASHTABLESIZE && w.b.table[bucket] != HASH_VAL_FREE
    requires !Disturbs(w, step, bucket) && Asks(w, step, bucket) && SelectionOf(w, step).Some?
    ensures SelectionOf(w, step).value.k.nextMember == w.b.table[bucket]
  {
    var req := RequestFor(w.b, w.sessions[step.i], step.e, step.stale);
    ChooseDraws(w.b, req);
    BoundRequestHits(w.b, req.path);
    hide Choose, Available, Bound, RegistryOk, CountsOk;
  }

  /** HASH affinity over runs: once a bucket is bound to a member, then through any steps of
      master, admin and monitor of which none takes the bucket (BucketMovesIff), it stays
      bound and every request in it that gets a member gets this one, also across times at
      which the member may not be used. */
  lemma {:induction false} HashAffinity(w: World, steps: seq<Step>, w': World, bucket: nat, m: nat)
    requires Inv(w) && bucket < HASHTABLESIZE && w.b.table[bucket] == m && UndisturbedRun(w, steps, w', bucket)
    ensures |w'.b.table| == HASHTABLESIZE && w'.b.table[bucket] == m && AllHit(w, steps, bucket, m)
    decreases |steps|
  {
    if steps == [] {
      TableSize(w.b);
    } else {
      StepKeepsInv(w, steps[0]);
      BucketMovesIff(w, steps[0], bucket);
      if Asks(w, steps[0], bucket) && SelectionOf(w, steps[0]).Some? { UndisturbedHits(w, steps[0], bucket); }
      hide Inv, Next, SelectionOf, Disturbs, Asks, Possible;
      HashAffinity(Next(w, steps[0]), steps[1..], w', bucket, m);
    }
  }
}
