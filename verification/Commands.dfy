/** What admin commands, checks and passes come to, said slot by slot and setting by setting,
    and what that means for the selections that follow. */
module Commands {
  import opened Relay
  import opened RelayInvariants
  import opened RelayEnds
  import opened UriHash
  import opened Registry
  import opened Selection
  import opened Monitor
  import opened System

  // ----- what a step is aimed at

  /** A server that commands can reach: neither free nor deleted. */
  predicate InService(v: Servers, m: int) {
    0 <= m < v.count && m < |v.slots| && v.slots[m].status != Free && v.slots[m].status != Deleted
  }

  /** The step carries the command to the server in slot m. */
  predicate Commands(b: Balancer, step: SharedStep, clone: bool, m: nat, cmd: Command) {
    match step
    case OneCommand(c, target, given) => c == clone && target == m && given == cmd && InService(Side(b, clone), m)
    case AllCommand(given) => given == cmd && InService(Side(b, clone), m)
    case _ => false
  }

  /** The step checks the server in slot m, which is enabled or failed. */
  predicate Checks(b: Balancer, step: SharedStep, clone: bool, m: nat, alive: bool) {
    && step == ProbeServer(clone, m, alive) && m < |Side(b, clone).slots|
    && (Side(b, clone).slots[m].status == Enabled || Side(b, clone).slots[m].status == Failed)
  }

  /** The step creates a server, and m is the first free slot. */
  predicate Creates(b: Balancer, step: SharedStep, clone: bool, m: nat) {
    && step.CreateServer? && step.clone == clone && m < |Side(b, clone).slots|
    && Side(b, clone).slots[m].status == Free
    && forall k :: 0 <= k < m ==> Side(b, clone).slots[k].status != Free
  }

  /** The step frees slot m. */
  predicate Frees(b: Balancer, step: SharedStep, clone: bool, m: nat) {
    && step.ReapPass? && m < |Side(b, clone).slots|
    && Side(b, clone).slots[m].status == Deleted && Side(b, clone).slots[m].c == 0
  }

  /** The step brings a fresh load for the server in slot m. */
  predicate Samples(b: Balancer, step: SharedStep, clone: bool, m: nat, load: real) {
    && step == SampleLoad(clone, m, load) && m < |Side(b, clone).slots|
    && (Side(b, clone).slots[m].status == Enabled || Side(b, clone).slots[m].status == Disabled)
  }

  // ----- the slots

  /** The status after a command, a check, or neither. */
  predicate StatusFollows(b: Balancer, step: SharedStep, clone: bool, m: nat, now: Status)
    requires m < |Side(b, clone).slots|
  {
    var was := Side(b, clone).slots[m].status;
    if Commands(b, step, clone, m, Enable) then now == (if was == Disabled then Enabled else was)
    else if Commands(b, step, clone, m, Disable) then now == Disabled
    else if Commands(b, step, clone, m, Delete) then now == Deleted
    else if Checks(b, step, clone, m, true) then now == Enabled
    else if Checks(b, step, clone, m, false) then now == Failed
    else now == was
  }

  predicate LimitsFollow(b: Balancer, step: SharedStep, clone: bool, m: nat, t: Server)
    requires m < |Side(b, clone).slots|
  {
    var s := Side(b, clone).slots[m];
    && (t.standby != s.standby <==> Commands(b, step, clone, m, Standby))
    && (t.maxc == if step.OneCommand? && step.cmd.MaxC? && Commands(b, step, clone, m, step.cmd) then step.cmd.maxc else s.maxc)
    && (t.maxl == if step.OneCommand? && step.cmd.MaxL? && Commands(b, step, clone, m, step.cmd) then step.cmd.maxl else s.maxl)
  }

  predicate LoadsFollow(b: Balancer, step: SharedStep, clone: bool, m: nat, t: Server)
    requires m < |Side(b, clone).slots|
  {
    var s := Side(b, clone).slots[m];
    && (t.load == if Checks(b, step, clone, m, false) then -1.0
                  else if step.SampleLoad? && Samples(b, step, clone, m, step.load) then step.load else s.load)
    && (if step.LoadPass? && m < Side(b, clone).count then
          if s.maxl > 0.0 && (s.load > 0.0 || (clone && s.load == 0.0)) then IsPercentage(t.eload, s.load, s.maxl) else t.eload == 0
        else t.eload == if Checks(b, step, clone, m, false) then 0 else s.eload)
  }

  /** A server after a step of the admin or the monitor. */
  predicate SlotFollows(b: Balancer, step: SharedStep, clone: bool, m: nat, t: Server)
    requires m < |Side(b, clone).slots|
  {
    var s := Side(b, clone).slots[m];
    if Creates(b, step, clone, m) then t == Server(m, step.status, step.standby, 0, step.maxc, -1.0, step.maxl, 0, 0)
    else if Frees(b, step, clone, m) then t == BLANK
    else
      && t.id == s.id && t.c == s.c && StatusFollows(b, step, clone, m, t.status)
      && LimitsFollow(b, step, clone, m, t) && LoadsFollow(b, step, clone, m, t)
  }

  lemma {:induction false} CreateFollows(b: Balancer, step: SharedStep, clone: bool, m: nat)
    requires RegistryOk(b) && SettingsOk(b) && SharedPossible(b, step) && step.CreateServer? && m < MAXSERVERS
    ensures m < |Side(Shared(b, step), clone).slots| && SlotFollows(b, step, clone, m, Side(Shared(b, step), clone).slots[m])
  {
    var v := Side(b, step.clone);
    var s := NewServer(step.status, step.standby, step.maxc, step.maxl);
    CreateKeeps(v, s);
    var i := FirstFree(v.slots, v.count);
    assert Side(Shared(b, step), step.clone) == Create(v, s) && Side(Shared(b, step), !step.clone) == Side(b, !step.clone);
    assert step.clone == clone ==> (Creates(b, step, clone, m) <==> m == i);
    hide Create, FirstFree, HashOk;
  }

  /** The step is aimed at some other server, or does not change servers. */
  predicate Spares(b: Balancer, step: SharedStep, clone: bool, m: nat) {
    && !Creates(b, step, clone, m) && !Frees(b, step, clone, m)
    && (step.OneCommand? || step.AllCommand? ==> !Commands(b, step, clone, m, step.cmd))
    && (step.ProbeServer? ==> !Checks(b, step, clone, m, step.alive))
    && (step.SampleLoad? ==> !Samples(b, step, clone, m, step.load))
    && (step.LoadPass? ==> m >= Side(b, clone).count)
  }

  lemma {:induction false} SparedFollows(b: Balancer, step: SharedStep, clone: bool, m: nat, t: Server)
    requires m < |Side(b, clone).slots| && Spares(b, step, clone, m)
    requires t == Side(b, clone).slots[m].(usage := t.usage)
    ensures SlotFollows(b, step, clone, m, t)
  {
    hide Creates, Frees, InService;
    match step
    case OneCommand(_, _, _) =>
    case AllCommand(_) =>
    case ProbeServer(_, _, _) =>
    case _ =>
  }

  lemma {:induction false} CommandedFollows(b: Balancer, step: SharedStep, clone: bool, m: nat)
    requires m < |Side(b, clone).slots| && (step.OneCommand? || step.AllCommand?)
    requires Commands(b, step, clone, m, step.cmd) && (step.AllCommand? ==> step.cmd.Enable? || step.cmd.Disable?)
    ensures SlotFollows(b, step, clone, m, Apply(step.cmd, Side(b, clone).slots[m]))
  {
    match step.cmd
    case Enable =>
    case Disable =>
    case Delete =>
    case Standby =>
    case MaxC(_) =>
    case MaxL(_) =>
  }

  lemma {:induction false} CommandFollows(b: Balancer, step: SharedStep, clone: bool, m: nat)
    requires RegistryOk(b) && SettingsOk(b) && SharedPossible(b, step) && m < MAXSERVERS
    requires step.OneCommand? || step.AllCommand?
    ensures m < |Side(Shared(b, step), clone).slots| && SlotFollows(b, step, clone, m, Side(Shared(b, step), clone).slots[m])
  {
    var v := Side(b, clone);
    var f := (s: Server) => Apply(step.cmd, s);
    var w := Side(Shared(b, step), clone);
    assert |v.slots| == MAXSERVERS && v.count <= MAXSERVERS;
    assert w.slots == (if step.AllCommand? then OnAll(v, f).slots else if step.clone == clone then OnOne(v, step.target, f).slots else v.slots);
    assert Manageable(v, m) <==> InService(v, m);
    var aimed := Commands(b, step, clone, m, step.cmd);
    assert w.slots[m] == if aimed then Apply(step.cmd, v.slots[m]) else v.slots[m];
    hide RegistryOk, ClonedState, Shared, SlotFollows, Apply, OnAll, OnOne;
    if aimed { CommandedFollows(b, step, clone, m); } else { SparedFollows(b, step, clone, m, v.slots[m]); }
  }

  lemma {:induction false} CheckedFollows(b: Balancer, step: SharedStep, clone: bool, m: nat)
    requires m < |Side(b, clone).slots|
    requires step.ProbeServer? ==> Checks(b, step, clone, m, step.alive)
    requires step.SampleLoad? ==> Samples(b, step, clone, m, step.load)
    requires step.ProbeServer? || step.SampleLoad?
    ensures var s := Side(b, clone).slots[m];
      SlotFollows(b, step, clone, m, if step.ProbeServer? then Probe(s, step.alive) else s.(load := step.load))
  {
  }

  lemma {:induction false} CheckFollows(b: Balancer, step: SharedStep, clone: bool, m: nat)
    requires RegistryOk(b) && SettingsOk(b) && SharedPossible(b, step) && m < MAXSERVERS
    requires step.ProbeServer? || step.SampleLoad?
    ensures m < |Side(Shared(b, step), clone).slots| && SlotFollows(b, step, clone, m, Side(Shared(b, step), clone).slots[m])
  {
    var v := Side(b, clone);
    assert |v.slots| == MAXSERVERS && v.count <= MAXSERVERS;
    var w := Side(Shared(b, step), clone);
    var aimed := if step.ProbeServer? then Checks(b, step, clone, m, step.alive) else Samples(b, step, clone, m, step.load);
    assert w.slots[m] == (if !aimed then v.slots[m]
      else if step.ProbeServer? then Probe(v.slots[m], step.alive) else v.slots[m].(load := step.load));
    assert !aimed ==> Spares(b, step, clone, m);
    hide RegistryOk, ClonedState, Shared, SlotFollows, Probe, Checks, Samples;
    if aimed { CheckedFollows(b, step, clone, m); } else { SparedFollows(b, step, clone, m, v.slots[m]); }
  }

  lemma {:induction false} LoadFollows(b: Balancer, clone: bool, m: nat)
    requires RegistryOk(b) && SettingsOk(b) && m < MAXSERVERS
    ensures m < |Side(Shared(b, LoadPass), clone).slots|
    ensures SlotFollows(b, LoadPass, clone, m, Side(Shared(b, LoadPass), clone).slots[m])
  {
    var v := Side(b, clone);
    assert |v.slots| == MAXSERVERS;
    EffectiveLoadExact(v.slots[m]);
    hide HashOk, SlotsOk, IsPercentage, EffectiveLoad, EffectiveCloneLoad, OverallLoad;
  }

  lemma {:induction false} PassFollows(b: Balancer, step: SharedStep, clone: bool, m: nat)
    requires RegistryOk(b) && SettingsOk(b) && SharedPossible(b, step) && m < MAXSERVERS
    requires step.ReapPass? || step.RebalancePass?
    ensures m < |Side(Shared(b, step), clone).slots| && SlotFollows(b, step, clone, m, Side(Shared(b, step), clone).slots[m])
  {
    var v, w := Side(b, clone), Side(Shared(b, step), clone);
    assert |v.slots| == MAXSERVERS;
    if step.ReapPass? {
      ReapMembersKeeps(b.members, b.table, 0);
      ReapClonesKeeps(b.clones, 0);
      assert w == if clone then ReapClones(b.clones, 0) else ReapMembers(b.members, b.table, 0).0;
      hide ReapMembers, ReapClones, HashOk, SlotsOk, Shared, SlotFollows;
      assert w.slots[m] == if Frees(b, step, clone, m) then BLANK else v.slots[m];
    } else {
      RebalanceKeepsOk(b, step.sorted);
      RebalanceKeepsRest(b, step.sorted);
      assert Shared(b, step) == Rebalance(b, step.sorted);
      hide Rebalance, HashOk, SlotsOk, Shared, SlotFollows;
    }
    if Frees(b, step, clone, m) { FreedFollows(b, step, clone, m); } else { SparedFollows(b, step, clone, m, w.slots[m]); }
  }

  lemma {:induction false} FreedFollows(b: Balancer, step: SharedStep, clone: bool, m: nat)
    requires Frees(b, step, clone, m)
    ensures SlotFollows(b, step, clone, m, BLANK)
  {
  }

  /** Exactly what every step of the admin and the monitor does to every server: who is enabled,
      disabled, failed, deleted and freed, whose standby mark, limits and loads change, and
      that nothing else does. */
  lemma {:induction false} SlotAfter(b: Balancer, step: SharedStep, clone: bool, m: nat)
    requires RegistryOk(b) && SettingsOk(b) && SharedPossible(b, step) && m < MAXSERVERS
    ensures m < |Side(b, clone).slots| && m < |Side(Shared(b, step), clone).slots|
    ensures SlotFollows(b, step, clone, m, Side(Shared(b, step), clone).slots[m])
  {
    assert |Side(b, clone).slots| == MAXSERVERS;
    match step
    case CreateServer(_, _, _, _, _) => hide Shared, SlotFollows; CreateFollows(b, step, clone, m);
    case OneCommand(_, _, _) => hide Shared, SlotFollows; CommandFollows(b, step, clone, m);
    case AllCommand(_) => hide Shared, SlotFollows; CommandFollows(b, step, clone, m);
    case ProbeServer(_, _, _) => hide Shared, SlotFollows; CheckFollows(b, step, clone, m);
    case SampleLoad(_, _, _) => hide Shared, SlotFollows; CheckFollows(b, step, clone, m);
    case LoadPass => hide Shared, SlotFollows; LoadFollows(b, clone, m);
    case ReapPass => hide Shared, SlotFollows; PassFollows(b, step, clone, m);
    case RebalancePass(_) => hide Shared, SlotFollows; PassFollows(b, step, clone, m);
    case Configure(_, _, _, _, _) => hide HashOk, SlotsOk;
    case SetCloning(_) => hide HashOk, SlotsOk, ClonedState;
  }

  // ----- the settings

  /** The step re-evaluates the clone mode: cloning is switched, servers are enabled or
      disabled, or a server has been checked. */
  predicate Reevaluates(b: Balancer, step: SharedStep) {
    match step
    case SetCloning(_) => true
    case AllCommand(_) => true
    case OneCommand(clone, target, cmd) => (cmd.Enable? || cmd.Disable?) && InService(Side(b, clone), target)
    case ProbeServer(clone, slot, alive) => Checks(b, step, clone, slot, alive)
    case _ => false
  }

  /** Exactly when cloning is on after a step: it stays as it was unless re-evaluated, and then
      it is off if it was or has been switched off, and otherwise on if and only if some
      clone is enabled now. */
  lemma {:induction false} CloneModeAfter(b: Balancer, step: SharedStep)
    requires RegistryOk(b) && SettingsOk(b) && SharedPossible(b, step)
    ensures var b' := Shared(b, step);
      if !Reevaluates(b, step) then b'.cloneMode == b.cloneMode
      else
        var off := if step.SetCloning? then !step.on else b.cloneMode == CloneOff;
        && (b'.cloneMode == CloneOff <==> off)
        && (b'.cloneMode == CloneOn <==> !off && EnabledClone(b'))
  {
    if step.RebalancePass? {
      RebalanceKeepsOk(b, step.sorted);
      RebalanceKeepsRest(b, step.sorted);
      hide Rebalance, HashOk, SlotsOk;
    } else {
      CloneModeOther(b, step);
      hide Shared, HashOk, SlotsOk, Reevaluates, EnabledClone;
    }
  }

  predicate EnabledClone(b: Balancer) {
    exists i :: 0 <= i < b.clones.count && i < |b.clones.slots| && b.clones.slots[i].status == Enabled
  }

  lemma {:induction false} CloneModeOther(b: Balancer, step: SharedStep)
    requires RegistryOk(b) && SettingsOk(b) && SharedPossible(b, step) && !step.RebalancePass?
    ensures var b' := Shared(b, step);
      if !Reevaluates(b, step) then b'.cloneMode == b.cloneMode
      else
        var off := if step.SetCloning? then !step.on else b.cloneMode == CloneOff;
        && (b'.cloneMode == CloneOff <==> off)
        && (b'.cloneMode == CloneOn <==> !off && EnabledClone(b'))
  {
    assert |b.members.slots| == |b.clones.slots| == MAXSERVERS && b.members.count <= MAXSERVERS && b.clones.count <= MAXSERVERS;
    hide HashOk, SlotsOk, ReapMembers, ReapClones, OverallLoad;
  }

  /** The other settings change by configuration only, each to what it is given, the overall
      load by the load pass only, and the cursors by no such step. */
  lemma {:induction false} SettingsAfter(b: Balancer, step: SharedStep)
    requires RegistryOk(b) && SettingsOk(b) && SharedPossible(b, step)
    ensures var b' := Shared(b, step);
      && b'.nextMember == b.nextMember && b'.nextClone == b.nextClone
      && (!step.LoadPass? ==> b'.overallLoad == b.overallLoad)
      && (if step.Configure? then
            && b'.algorithm == step.algorithm && b'.strict == step.strict && b'.weight == step.weight
            && b'.threshold == step.threshold && b'.size == step.size
          else
            && b'.algorithm == b.algorithm && b'.strict == b.strict && b'.weight == b.weight
            && b'.threshold == b.threshold && b'.size == b.size)
  {
    if step.RebalancePass? {
      RebalanceKeepsOk(b, step.sorted);
      RebalanceKeepsRest(b, step.sorted);
      hide Rebalance, HashOk, SlotsOk;
    } else {
      hide HashOk, SlotsOk, ClonedState, ReapMembers, ReapClones, OverallLoad;
    }
  }

  /** How many servers there are after a step: one more when a new one finds no free slot, one
      less when the last one is freed. */
  lemma {:induction false} CountAfter(b: Balancer, step: SharedStep, clone: bool)
    requires RegistryOk(b) && SettingsOk(b) && SharedPossible(b, step)
    ensures var v, n := Side(b, clone), Side(Shared(b, step), clone).count;
      && v.count <= |v.slots|
      && n == (if step.CreateServer? && step.clone == clone && (forall k :: 0 <= k < v.count ==> v.slots[k].status != Free) then v.count + 1
               else if v.count > 0 && Frees(b, step, clone, v.count - 1) then v.count - 1 else v.count)
  {
    assert |Side(b, clone).slots| == MAXSERVERS && Side(b, clone).count <= MAXSERVERS;
    if step.ReapPass? {
      ReapCounts(b.members, b.table, 0);
      ReapCounts(b.clones, b.table, 0);
      hide ReapMembers, ReapClones, HashOk, SlotsOk;
    } else if step.RebalancePass? {
      RebalanceKeepsOk(b, step.sorted);
      RebalanceKeepsRest(b, step.sorted);
      hide Rebalance, HashOk, SlotsOk;
    } else {
      hide HashOk, SlotsOk, ClonedState, OverallLoad;
    }
  }

  /** The overall load after a load pass is that of the members alone. */
  lemma {:induction false} OverallLoadAfter(b: Balancer)
    requires RegistryOk(b) && SettingsOk(b)
    ensures var v, p := b.members, Shared(b, LoadPass).overallLoad;
      && v.count <= |v.slots|
      && if exists i :: 0 <= i < v.count && Contributes(v.slots[i])
         then IsPercentage(p, TotalLoad(v.slots, v.count), TotalMax(v.slots, v.count)) else p == b.overallLoad
  {
    assert |b.members.slots| == MAXSERVERS && b.members.count <= MAXSERVERS;
    OverallLoadExact(b.members.slots, b.members.count, b.overallLoad);
    hide HashOk, SlotsOk, OverallLoad, IsPercentage, TotalLoad, TotalMax;
  }

  // ----- who is brought up

  /** The step makes the server in slot m an enabled one: a failed one is found alive, a disabled
      one is enabled, or an enabled one is created there. */
  predicate BringsUp(b: Balancer, step: SharedStep, clone: bool, m: nat) {
    && m < |Side(b, clone).slots|
    && (|| (Checks(b, step, clone, m, true) && Side(b, clone).slots[m].status == Failed)
        || (Commands(b, step, clone, m, Enable) && Side(b, clone).slots[m].status == Disabled)
        || (Creates(b, step, clone, m) && step.status == Enabled))
  }

  /** The step takes the enabled server in slot m out: it is found dead, disabled or deleted. */
  predicate TakesDown(b: Balancer, step: SharedStep, clone: bool, m: nat) {
    || Checks(b, step, clone, m, false) || Commands(b, step, clone, m, Disable) || Commands(b, step, clone, m, Delete)
  }

  /** A server comes up or goes down by such a step if and only if it is one of these. */
  lemma {:induction false} UpAndDownIff(b: Balancer, step: SharedStep, clone: bool, m: nat)
    requires RegistryOk(b) && SettingsOk(b) && SharedPossible(b, step) && m < MAXSERVERS
    ensures m < |Side(b, clone).slots| && m < |Side(Shared(b, step), clone).slots|
    ensures var was, now := Side(b, clone).slots[m].status, Side(Shared(b, step), clone).slots[m].status;
      if was == Enabled then now != Enabled <==> TakesDown(b, step, clone, m)
      else now == Enabled <==> BringsUp(b, step, clone, m)
  {
    SlotAfter(b, step, clone, m);
    var t := Side(Shared(b, step), clone).slots[m];
    hide Shared, RegistryOk, LimitsFollow, LoadsFollow, SettingsOk, SharedPossible;
    StatusIff(b, step, clone, m, t);
  }

  lemma {:induction false} StatusIff(b: Balancer, step: SharedStep, clone: bool, m: nat, t: Server)
    requires m < |Side(b, clone).slots| && SlotFollows(b, step, clone, m, t)
    ensures if Side(b, clone).slots[m].status == Enabled then t.status != Enabled <==> TakesDown(b, step, clone, m)
      else t.status == Enabled <==> BringsUp(b, step, clone, m)
  {
    hide LimitsFollow, LoadsFollow;
  }

  lemma {:induction false} TakenDownStatus(b: Balancer, step: SharedStep, clone: bool, m: nat, t: Server)
    requires m < |Side(b, clone).slots| && SlotFollows(b, step, clone, m, t) && TakesDown(b, step, clone, m)
    ensures t.status != Enabled
  {
    hide LimitsFollow, LoadsFollow;
  }

  // ----- what it means for selections

  lemma {:induction false} MasterKeepsStatus(w: World, step: Step, clone: bool, m: nat)
    requires Inv(w) && Possible(w, step) && !step.Other? && m < MAXSERVERS
    ensures m < |Side(w.b, clone).slots| && m < |Side(Next(w, step).b, clone).slots|
    ensures Side(Next(w, step).b, clone).slots[m].status == Side(w.b, clone).slots[m].status
  {
    SelectionKeepsStatus(w, step, m);
    var sel := SelectionOf(w, step);
    var o := OutcomeOf(w, step);
    hide SelectionOf, OutcomeOf, Inv, Credit;
    var b := if sel.Some? then sel.value.b else w.b;
    CreditKeepsStatus(b.members, o.s.member, o.fx.memberJoins, o.fx.memberDrops, m);
    CreditKeepsStatus(b.clones, o.s.clone, o.fx.cloneJoins, o.fx.cloneDrops, m);
  }

  lemma {:induction false} SelectionKeepsStatus(w: World, step: Step, m: nat)
    requires Inv(w) && Possible(w, step) && m < MAXSERVERS
    ensures var sel := SelectionOf(w, step);
      var b := if sel.Some? then sel.value.b else w.b;
      && |w.b.members.slots| == |w.b.clones.slots| == |b.members.slots| == |b.clones.slots| == MAXSERVERS
      && b.members.slots[m].status == w.b.members.slots[m].status && b.clones == w.b.clones
  {
    SelectionIsGood(w, step);
    assert |w.b.members.slots| == MAXSERVERS && |w.b.clones.slots| == MAXSERVERS;
    hide SelectionOf, Inv, Sound, RegistryOk;
  }

  lemma {:induction false} CreditKeepsStatus(v: Servers, slot: nat, up: nat, down: nat, m: nat)
    requires m < |v.slots|
    ensures |Credit(v, slot, up, down).slots| == |v.slots| && Credit(v, slot, up, down).slots[m].status == v.slots[m].status
  {
  }

  /** A selection does not pick a server that is not enabled. */
  lemma {:induction false} NotPicked(w: World, step: Step, clone: bool, m: nat)
    requires Inv(w) && Possible(w, step) && m < MAXSERVERS && m < |Side(w.b, clone).slots|
    requires Side(w.b, clone).slots[m].status != Enabled && SelectionOf(w, step).Some?
    ensures !Picks(SelectionOf(w, step).value.k, clone, m)
  {
    SelectionIsGood(w, step);
    hide SelectionOf, Inv, OnlyUsage, RegistryOk;
  }

  predicate Picks(k: Choice, clone: bool, m: nat) {
    if clone then k.useClone && k.nextClone == m else k.nextMember == m
  }

  /** No step of the run brings the server up. */
  ghost predicate StaysDown(w: World, steps: seq<Step>, clone: bool, m: nat)
    requires Inv(w)
    decreases |steps|
  {
    steps == [] || !Possible(w, steps[0]) ||
    (&& (steps[0].Other? ==> !BringsUp(w.b, steps[0].shared, clone, m))
     && (StepKeepsInv(w, steps[0]); StaysDown(Next(w, steps[0]), steps[1..], clone, m)))
  }

  /** No selection of the run picks the server. */
  ghost predicate NeverPicked(w: World, steps: seq<Step>, clone: bool, m: nat)
    requires Inv(w)
    decreases |steps|
  {
    steps == [] || !Possible(w, steps[0]) ||
    (&& (SelectionOf(w, steps[0]).Some? ==> !Picks(SelectionOf(w, steps[0]).value.k, clone, m))
     && (StepKeepsInv(w, steps[0]); NeverPicked(Next(w, steps[0]), steps[1..], clone, m)))
  }

  /** A server that is not enabled gets no client: in every run of the whole system, no
      selection picks it until a step brings it up. */
  lemma {:induction false} DownIsNeverPicked(w: World, steps: seq<Step>, w': World, clone: bool, m: nat)
    requires Inv(w) && Runs(w, steps, w') && m < MAXSERVERS && m < |Side(w.b, clone).slots|
    requires Side(w.b, clone).slots[m].status != Enabled && StaysDown(w, steps, clone, m)
    ensures NeverPicked(w, steps, clone, m)
    ensures m < |Side(w'.b, clone).slots| && Side(w'.b, clone).slots[m].status != Enabled
    decreases |steps|
  {
    if steps != [] {
      var step := steps[0];
      StepKeepsInv(w, step);
      DownStays(w, step, clone, m);
      if SelectionOf(w, step).Some? { NotPicked(w, step, clone, m); }
      hide Inv, Next, Possible, SelectionOf, BringsUp, Picks, Side;
      DownIsNeverPicked(Next(w, step), steps[1..], w', clone, m);
    }
  }

  lemma {:induction false} DownStays(w: World, step: Step, clone: bool, m: nat)
    requires Inv(w) && Possible(w, step) && m < MAXSERVERS && m < |Side(w.b, clone).slots|
    requires Side(w.b, clone).slots[m].status != Enabled && (step.Other? ==> !BringsUp(w.b, step.shared, clone, m))
    ensures m < |Side(Next(w, step).b, clone).slots| && Side(Next(w, step).b, clone).slots[m].status != Enabled
  {
    if step.Other? {
      UpAndDownIff(w.b, step.shared, clone, m);
      hide Shared, CountsOk, RegistryOk, BringsUp, TakesDown;
    } else {
      hide Next, Inv;
      MasterKeepsStatus(w, step, clone, m);
    }
  }

  /** After a check that found it dead, a command that disabled or a command that deleted it, no
      selection picks a server until a later step brings it up. */
  lemma {:induction false} TakenDownIsNeverPicked(w: World, step: SharedStep, steps: seq<Step>, w': World, clone: bool, m: nat)
    requires Inv(w) && Possible(w, Other(step)) && m < MAXSERVERS && TakesDown(w.b, step, clone, m)
    requires Inv(Next(w, Other(step))) && Runs(Next(w, Other(step)), steps, w') && StaysDown(Next(w, Other(step)), steps, clone, m)
    ensures NeverPicked(Next(w, Other(step)), steps, clone, m)
  {
    SlotAfter(w.b, step, clone, m);
    assert Next(w, Other(step)).b == Shared(w.b, step);
    hide Shared, Inv, SlotFollows, TakesDown, Runs, StaysDown, NeverPicked, RegistryOk, SettingsOk, Next;
    TakenDownStatus(w.b, step, clone, m, Side(Shared(w.b, step), clone).slots[m]);
    DownIsNeverPicked(Next(w, Other(step)), steps, w', clone, m);
  }

  // ----- when a server is selected

  /** The step brings the first request of a fresh session. */
  predicate FirstRequest(w: World, step: Step) {
    && step.Handle? && step.i < |w.sessions| && step.e.ClientReady? && step.e.rd.Some?
    && step.e.rd.value.ReadSome? && step.e.rd.value.available != []
    && w.sessions[step.i].flags.isFresh && w.sessions[step.i].flags.cliConnected
  }

  /** Exactly when a step selects servers, and by what: at accept under the three algorithms
      that do not need the request, at the first request of a fresh session under any; and
      then HASH and STATIC go by what that request starts with, old bytes behind it included. */
  lemma {:induction false} SelectsExactly(w: World, step: Step)
    requires Inv(w) && SessionsOk(w) && Possible(w, step)
    ensures SelectionOf(w, step).Some? <==>
      && Available(w.b).Some?
      && (|| (step.Accept? && step.watched && w.b.algorithm != Hash && w.b.algorithm != Static) || FirstRequest(w, step))
    ensures SelectionOf(w, step).Some? ==>
      var deferred := w.b.algorithm == Hash || w.b.algorithm == Static;
      var req := if step.Accept? || !deferred then NotHttp
                 else Parse(FirstBytes(step.e.rd.value.available) + step.stale);
      req != Undefined && SelectionOf(w, step) == Choose(w.b, req)
  {
    match step
    case Handle(i, e, _, stale) =>
      assert SessionOk(w.sessions[i]);
      FirstRequestSelects(w.sessions[i], e, stale);
      hide Choose, Available, RegistryOk, CountsOk, Selects, Live, Dead;
      if Selects(w.sessions[i], e) { ChooseSucceeds(w.b, RequestFor(w.b, w.sessions[i], e, stale)); }
    case Accept(i, _, _, _) =>
      ChooseSucceeds(w.b, NotHttp);
      hide Choose, Available, RegistryOk, CountsOk;
    case Other(_) =>
  }

  /** A selection that comes to a connection: the session is connected to the selected member
      and clone, on the descriptors opened for them. */
  lemma {:induction false} SelectedIsConnected(w: World, step: Step)
    requires Inv(w) && SessionsOk(w) && Possible(w, step) && SelectionOf(w, step).Some?
    requires step.Accept? ==> Dead(w.sessions[step.i])
    ensures var k, s := SelectionOf(w, step).value.k, OutcomeOf(w, step).s;
      && (s.flags.memConnected ==> s.member == k.nextMember && s.memberfd == step.env.memberfd)
      && (s.flags.cloConnected ==> k.useClone && s.clone == k.nextClone && s.clonefd == step.env.clonefd)
  {
    var p := PickFrom(SelectionOf(w, step), step.env);
    match step
    case Accept(i, fd, watched, _) =>
      AcceptConnects(w.sessions[i], fd, watched, w.setsFresh, ChoosesAtAccept(w.b), p);
      AcceptCounted(w.sessions[i], fd, watched, w.setsFresh, ChoosesAtAccept(w.b), p);
      hide SelectionOf, Relay.Accept, Inv;
    case Handle(i, e, _, _) =>
      assert SessionOk(w.sessions[i]);
      FirstRequestConnects(w.sessions[i], e.rd, e.wr, p);
      DispatchCounted(w.sessions[i], ClientReady(e.rd, e.wr, p));
      assert !w.sessions[i].flags.cloConnected;
      hide SelectionOf, Dispatch, Inv, Live;
  }

  /** As many bytes of a first request as the buffer takes. */
  function FirstBytes(available: seq<Byte>): seq<Byte> {
    available[..if |available| <= MESSAGE_SIZE_LIMIT then |available| else MESSAGE_SIZE_LIMIT]
  }

  lemma {:induction false} FirstRequestSelects(s: Session, e: Event, stale: seq<Byte>)
    requires SessionOk(s)
    ensures Selects(s, e) <==>
      && e.ClientReady? && e.rd.Some? && e.rd.value.ReadSome? && e.rd.value.available != []
      && s.flags.isFresh && s.flags.cliConnected
    ensures Selects(s, e) ==> RequestIn(s, e, stale) == Parse(FirstBytes(e.rd.value.available) + stale)
  {
    if Selects(s, e) {
      assert s.toMember == [];
      assert s.toMember + Taken(e.rd.value, Room(s.toMember)) + stale == FirstBytes(e.rd.value.available) + stale;
    }
    hide Parse;
  }

  lemma {:induction false} ChooseSucceeds(b: Balancer, req: Request)
    requires RegistryOk(b) && req != Undefined
    ensures Choose(b, req).Some? <==> Available(b).Some?
  {
    hide Available, RunAlgorithm, RegistryOk;
  }
}
