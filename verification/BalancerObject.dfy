/** The shared balancer structure as the program holds it: two fixed arrays of servers and
    the hash table, overwritten in place. Its methods take exactly the steps that the
    interleaving model in System is about. */
module BalancerObject {
  import opened Relay
  import opened UriHash
  import opened Registry
  import opened Selection
  import opened Monitor
  import opened ServerScans
  import System

  class SharedBalancer {
    const members: array<Server>
    const clones: array<Server>
    const table: array<int>
    var nmembers: nat
    var nclones: nat
    var algorithm: Algorithm
    var cloneMode: CloneMode
    var strict: bool
    var weight: real
    var threshold: int
    var size: int
    var overallLoad: int
    var nextMember: nat
    var nextClone: nat

    ghost predicate Valid()
      reads this
    {
      && members.Length == clones.Length == MAXSERVERS && table.Length == HASHTABLESIZE
      && members != clones && nmembers <= MAXSERVERS && nclones <= MAXSERVERS
    }

    /** The structure as a value. */
    ghost function View(): Balancer
      requires Valid()
      reads this, members, clones, table
    {
      Balancer(Servers(members[..], nmembers), Servers(clones[..], nclones), table[..],
               algorithm, cloneMode, strict, weight, threshold, size, overallLoad, nextMember, nextClone)
    }

    /** Everything the system invariant says about the structure alone. */
    ghost predicate Ok()
      reads this, members, clones, table
    {
      Valid() && RegistryOk(View()) && System.SettingsOk(View())
    }

    /** initialize_balancer. */
    constructor ()
      ensures Ok() && View() == InitialBalancer()
      ensures fresh(members) && fresh(clones) && fresh(table)
    {
      members := new Server[MAXSERVERS](_ => BLANK);
      clones := new Server[MAXSERVERS](_ => BLANK);
      table := new int[HASHTABLESIZE](_ => 0);
      nmembers, nclones := 0, 0;
      algorithm, cloneMode, strict, weight := LeastConnections, CloneOff, false, 1.0 / 10.0;
      threshold, size, overallLoad := 30, 5, -1;
      nextMember, nextClone := 0, 0;
      new;
      for i := 0 to HASHTABLESIZE
        modifies table
        invariant forall k :: 0 <= k < i ==> table[k] == HASH_VAL_FREE
      {
        table[i] := HASH_VAL_FREE;
      }
      assert View() == InitialBalancer();
      InitialOk();
    }

    // ----- selection

    /** One of the two double scans of get_available_servers. */
    method CollectWithFallback(slots: array<Server>, n: nat) returns (list: seq<nat>, standbys: bool)
      requires n <= slots.Length
      ensures list == ScanWithFallback(Servers(slots[..], n), strict)
      ensures standbys <==> Scan(slots[..], n, strict, false) == []
    {
      list := Collect(slots, n, strict, false);
      standbys := list == [];
      if standbys {
        list := Collect(slots, n, strict, true);
      }
    }

    /** get_available_servers: what it leaves in the global variables. */
    method GetAvailableServers() returns (k: Option<Choice>)
      requires Ok()
      ensures k == Available(View())
    {
      hide SlotsOk, HashOk, Scan, ScanWithFallback, Verify;
      var list, standbys := CollectWithFallback(members, nmembers);
      if list == [] {
        return None;
      }
      var next := nextMember;
      var verdict := Verify(strict, members[nextMember]);
      if verdict == -1 {
        next := list[0];
      }
      if verdict == 1 && !standbys {
        next := list[0];
      }
      if cloneMode != CloneOn {
        return Some(Choice(list, standbys, [], false, next, nextClone));
      }
      var cloneList, _ := CollectWithFallback(clones, nclones);
      var nextC := nextClone;
      if cloneList != [] {
        verdict := Verify(strict, clones[nextClone]);
        if verdict == -1 {
          nextC := cloneList[0];
        }
        if verdict == 1 && !standbys {
          next := list[0];
        }
      }
      return Some(Choice(list, standbys, cloneList, cloneList != [], next, nextC));
    }

    method SetRrServer(k: Choice) returns (r: Choice)
      requires Ok() && Grounded(View(), k)
      ensures r == SetRr(View(), k)
    {
      hide RegistryOk, Successor;
      var m := FindSuccessor(members, k.members, k.nextMember);
      r := k.(nextMember := m);
      if k.useClone {
        var c := FindSuccessor(clones, k.clones, k.nextClone);
        r := r.(nextClone := c);
      }
    }

    method SetLcServer(k: Choice) returns (r: Choice)
      requires Ok() && Grounded(View(), k)
      ensures r == SetLc(View(), k)
    {
      RrStaysGrounded(View(), k);
      hide RegistryOk, SetRr, Least;
      r := SetRrServer(k);
      var m := FindLeastConnections(members, r.members, r.nextMember);
      var c := r.nextClone;
      if r.useClone {
        c := FindLeastConnections(clones, r.clones, r.nextClone);
      }
      r := r.(nextMember := m, nextClone := c);
    }

    method SetLlServer(k: Choice) returns (r: Choice)
      requires Ok() && Grounded(View(), k)
      ensures r == SetLeast(View(), k, WeightedLoad(weight))
    {
      hide RegistryOk, Least;
      var m := FindLeastLoad(members, k.members, k.nextMember, weight);
      var c := k.nextClone;
      if k.useClone {
        c := FindLeastLoad(clones, k.clones, k.nextClone, weight);
      }
      r := k.(nextMember := m, nextClone := c);
    }

    method SetStaticServer(k: Choice, req: Request) returns (r: Choice)
      requires Ok() && Grounded(View(), k) && req != Undefined
      ensures r == SetStatic(View(), k, req)
    {
      hide RegistryOk, SetLc;
      if req == NotHttp {
        r := SetLcServer(k);
        return;
      }
      var hash := DjbHash(req.path);
      hash := hash % (HASHTABLESIZE - 1);
      assert hash == Bucket(req.path);
      r := k.(nextMember := k.members[hash % |k.members|]);
      if k.useClone {
        r := r.(nextClone := k.clones[hash % |k.clones|]);
      }
    }

    /** A bucket changes hands: the accounting of set_hash_server. */
    method Rebind(bucket: nat, m: nat)
      requires Ok() && bucket < HASHTABLESIZE && m < MAXSERVERS && members[m].status != Free
      modifies members, table
      ensures Ok() && RegistryOk(old(Unbind(View(), bucket)))
      ensures View() == Assign(old(Unbind(View(), bucket)), bucket, m)
    {
      ghost var b := View();
      RebindKeepsOk(b, bucket, m);
      TableEntry(b, bucket);
      RebindInSlots(b, bucket, m);
      hide RegistryOk, Assign, Unbind, OnlyUsage, MovedUsage;
      MoveBucket(bucket, m);
      assert View() == Assign(Unbind(b, bucket), bucket, m);
    }

    /** The two counters, and the entry. */
    method MoveBucket(bucket: nat, m: nat)
      requires Valid() && bucket < HASHTABLESIZE && m < MAXSERVERS
      requires table[bucket] == HASH_VAL_FREE || 0 <= table[bucket] < MAXSERVERS
      modifies members, table
      ensures Valid() && table[..] == old(table[..])[bucket := m]
      ensures members[..] == MovedUsage(old(members[..]), old(table[bucket]), m)
    {
      if table[bucket] != HASH_VAL_FREE {
        AddUsage(table[bucket], -1);
      }
      AddUsage(m, 1);
      table[bucket] := m;
    }

    /** A usage counter goes up or down by one, in 16 bits. */
    method AddUsage(m: nat, change: int)
      requires Valid() && m < MAXSERVERS
      modifies members
      ensures Valid()
      ensures members[..] == old(members[..])[m := old(members[m]).(usage := (old(members[m].usage) + change) % SHORT)]
    {
      members[m] := members[m].(usage := (members[m].usage + change) % SHORT);
    }

    /** One counter is lowered, if there is one to lower, and then the other raised. */
    static function MovedUsage(slots: seq<Server>, k: int, m: nat): seq<Server>
      requires m < |slots| && (k == HASH_VAL_FREE || 0 <= k < |slots|)
    {
      var lowered := if k == HASH_VAL_FREE then slots else slots[k := slots[k].(usage := (slots[k].usage - 1) % SHORT)];
      lowered[m := lowered[m].(usage := (lowered[m].usage + 1) % SHORT)]
    }

    lemma {:induction false} RebindInSlots(b: Balancer, bucket: nat, m: nat)
      requires RegistryOk(b) && bucket < HASHTABLESIZE && m < MAXSERVERS && RegistryOk(Unbind(b, bucket))
      ensures Assign(Unbind(b, bucket), bucket, m) ==
        b.(table := b.table[bucket := m],
           members := b.members.(slots := MovedUsage(b.members.slots, b.table[bucket], m)))
    {
      assert b.table[bucket := HASH_VAL_FREE][bucket := m] == b.table[bucket := m];
      hide HashOk, SlotsOk;
    }

    lemma {:induction false} TableEntry(b: Balancer, bucket: nat)
      requires RegistryOk(b) && bucket < HASHTABLESIZE
      ensures |b.table| == HASHTABLESIZE && (b.table[bucket] != HASH_VAL_FREE ==> 0 <= b.table[bucket] < MAXSERVERS)
    {
    }

    /** The check of set_hash_server whether a bucket has a member that may be used. */
    method FindBound(k: Choice, bucket: nat) returns (m: Option<nat>)
      requires Ok() && bucket < HASHTABLESIZE
      ensures m == Bound(View(), k, bucket)
    {
      hide Verify;
      if table[bucket] == HASH_VAL_FREE {
        return None;
      }
      var verdict := Verify(strict, members[table[bucket]]);
      if verdict == 0 || (verdict == 1 && k.usingStandby) {
        return Some(table[bucket]);
      }
      return None;
    }

    /** The cursors when a bucket has a member that may be used. */
    method FollowBound(k: Choice, bucket: nat, m: nat) returns (r: Choice)
      requires Ok() && Grounded(View(), k) && m < MAXSERVERS
      ensures r == k.(nextMember := View().members.slots[m].id,
                      nextClone := if k.useClone then k.clones[bucket % |k.clones|] else k.nextClone)
    {
      r := k.(nextMember := members[m].id);
      if k.useClone {
        r := r.(nextClone := k.clones[bucket % |k.clones|]);
      }
    }

    method SetHashServer(k: Choice, req: Request) returns (r: Choice)
      requires Ok() && Available(View()) == Some(k) && req != Undefined
      modifies members, table
      ensures Ok() && Grounded(old(View()), k)
      ensures (View(), r) == SetHash(old(View()), k, req)
    {
      ghost var b := View();
      LcPicksEnabled(b);
      AvailableIsGrounded(b);
      hide RegistryOk, SetLc, Available, Assign, Unbind, Bound;
      if req == NotHttp {
        r := SetLcServer(k);
        return;
      }
      var hash := DjbHash(req.path);
      hash := hash % (HASHTABLESIZE - 1);
      assert hash == Bucket(req.path);
      var bound := FindBound(k, hash);
      if bound.Some? {
        r := FollowBound(k, hash, bound.value);
        return;
      }
      r := SetLcServer(k);
      Rebind(hash, r.nextMember);
    }

    lemma {:induction false} LcPicksEnabled(b: Balancer)
      requires RegistryOk(b) && Available(b).Some?
      ensures Grounded(b, Available(b).value)
      ensures var m := SetLc(b, Available(b).value).nextMember; m < MAXSERVERS && b.members.slots[m].status == Enabled
    {
      AvailableSound(b);
      AvailableIsGrounded(b);
      LcDraws(b, Available(b).value);
      hide Available, SetLc;
    }

    method ApplyAlgorithm(k: Choice, req: Request) returns (r: Choice)
      requires Ok() && Available(View()) == Some(k) && req != Undefined
      modifies members, table
      ensures Ok() && Grounded(old(View()), k)
      ensures (View(), r) == RunAlgorithm(old(View()), k, req)
    {
      AvailableIsGrounded(View());
      hide RegistryOk, Available, SetRr, SetLc, SetLeast, SetHash, SetStatic, Grounded;
      match algorithm {
        case RoundRobin => r := SetRrServer(k);
        case LeastLoad => r := SetLlServer(k);
        case LeastConnections => r := SetLcServer(k);
        case Hash => r := SetHashServer(k, req);
        case Static => r := SetStaticServer(k, req);
      }
    }

    /** choose_server up to the connection; the cursors are kept. */
    method ChooseServer(req: Request) returns (k: Option<Choice>)
      requires Ok() && req != Undefined
      modifies this, members, table
      ensures Ok()
      ensures old(Choose(View(), req)).None? ==> k == None && View() == old(View())
      ensures old(Choose(View(), req)).Some? ==>
        k == Some(old(Choose(View(), req)).value.k) && View() == old(Choose(View(), req)).value.b
    {
      ghost var b := View();
      if Choose(b, req).Some? { ChooseKeepsOk(b, req); }
      hide RegistryOk, Available, RunAlgorithm, Grounded, OnlyUsage;
      k := GetAvailableServers();
      if k == None {
        return;
      }
      var r := ApplyAlgorithm(k.value, req);
      ghost var b' := View();
      nextMember, nextClone := r.nextMember, r.nextClone;
      k := Some(r);
      assert View() == b'.(nextMember := r.nextMember, nextClone := r.nextClone);
    }

    // ----- steps of the admin

    /** create_balancer_server for a member. */
    method CreateMember(s: Server)
      requires Valid() && HasRoom(Servers(members[..], nmembers))
      modifies this`nmembers, members
      ensures Valid() && Servers(members[..], nmembers) == Create(old(Servers(members[..], nmembers)), s)
    {
      var slot := FindFree(members, nmembers);
      members[slot] := s.(id := slot);
      if slot == nmembers {
        nmembers := nmembers + 1;
      }
    }

    /** create_balancer_server for a clone. */
    method CreateClone(s: Server)
      requires Valid() && HasRoom(Servers(clones[..], nclones))
      modifies this`nclones, clones
      ensures Valid() && Servers(clones[..], nclones) == Create(old(Servers(clones[..], nclones)), s)
    {
      var slot := FindFree(clones, nclones);
      clones[slot] := s.(id := slot);
      if slot == nclones {
        nclones := nclones + 1;
      }
    }

    method CreateServer(clone: bool, status: Status, standby: bool, maxc: int, maxl: real)
      requires Ok() && System.SharedPossible(View(), System.CreateServer(clone, status, standby, maxc, maxl))
      modifies this`nmembers, this`nclones, members, clones
      ensures Ok() && View() == System.Shared(old(View()), System.CreateServer(clone, status, standby, maxc, maxl))
    {
      System.SharedKeeps(View(), System.CreateServer(clone, status, standby, maxc, maxl));
      hide RegistryOk, Create;
      var s := NewServer(status, standby, maxc, maxl);
      if clone {
        CreateClone(s);
      } else {
        CreateMember(s);
      }
    }

    /** set_cloned_state. */
    method SetClonedState()
      requires Valid()
      modifies this`cloneMode
      ensures Valid() && View() == System.Reevaluated(old(View()))
    {
      var some := AnyEnabled(clones, nclones);
      if cloneMode == CloneOn {
        if !some {
          cloneMode := CloneFailed;
        }
      } else if cloneMode == CloneFailed {
        if some {
          cloneMode := CloneOn;
        }
      }
    }

    /** cmd_enable and cmd_disable on all servers. */
    method CommandAllServers(cmd: System.Command)
      requires Ok() && (cmd.Enable? || cmd.Disable?)
      modifies this`cloneMode, members, clones
      ensures Ok() && View() == System.Shared(old(View()), System.AllCommand(cmd))
    {
      System.SharedKeeps(View(), System.AllCommand(cmd));
      hide RegistryOk, System.Apply;
      var f := (s: Server) => System.Apply(cmd, s);
      CommandAll(members, nmembers, f);
      CommandAll(clones, nclones, f);
      SetClonedState();
    }

    /** set_subject for one target, and the command on it; a bad target is refused. */
    method CommandOne(clone: bool, target: int, cmd: System.Command) returns (accepted: bool)
      requires Ok()
      modifies this`cloneMode, members, clones
      ensures accepted <==> old(Manageable(if clone then View().clones else View().members, target))
      ensures Ok() && View() == System.Shared(old(View()), System.OneCommand(clone, target, cmd))
      ensures !accepted ==> View() == old(View())
    {
      ghost var b := View();
      System.SharedKeeps(b, System.OneCommand(clone, target, cmd));
      hide RegistryOk, System.Apply;
      accepted := false;
      if clone {
        if 0 <= target < nclones && clones[target].status != Free && clones[target].status != Deleted {
          clones[target] := System.Apply(cmd, clones[target]);
          accepted := true;
        }
      } else {
        if 0 <= target < nmembers && members[target].status != Free && members[target].status != Deleted {
          members[target] := System.Apply(cmd, members[target]);
          accepted := true;
        }
      }
      if accepted && (cmd.Enable? || cmd.Disable?) {
        SetClonedState();
      }
    }

    // ----- passes of the monitor

    /** check_server_state with the outcome of the probe. */
    method CheckServerState(clone: bool, slot: nat, alive: bool)
      requires Ok() && slot < (if clone then nclones else nmembers)
      modifies this`cloneMode, members, clones
      ensures Ok() && View() == System.Shared(old(View()), System.ProbeServer(clone, slot, alive))
    {
      System.SharedKeeps(View(), System.ProbeServer(clone, slot, alive));
      hide RegistryOk;
      var s := if clone then clones[slot] else members[slot];
      if s.status != Enabled && s.status != Failed {
        return;
      }
      s := if alive then s.(status := Enabled) else s.(status := Failed, load := -1.0, eload := 0);
      if clone {
        clones[slot] := s;
      } else {
        members[slot] := s;
      }
      SetClonedState();
    }

    /** handle_delete_servers, for the members. */
    method ReapMemberSlots()
      requires Valid()
      modifies this`nmembers, members, table
      ensures Valid()
      ensures (Servers(members[..], nmembers), table[..]) == ReapMembers(old(Servers(members[..], nmembers)), old(table[..]), 0)
    {
      ghost var v, t := Servers(members[..], nmembers), table[..];
      var i := 0;
      while i < nmembers
        invariant Valid()
        invariant ReapMembers(Servers(members[..], nmembers), table[..], i) == ReapMembers(v, t, 0)
        decreases nmembers - i
      {
        if members[i].status == Deleted && members[i].c == 0 {
          UnassignEntries(table, i);
          members[i] := BLANK;
          if i == nmembers - 1 {
            nmembers := nmembers - 1;
          }
        }
        i := i + 1;
      }
    }

    /** handle_delete_servers, for the clones. */
    method ReapCloneSlots()
      requires Valid()
      modifies this`nclones, clones
      ensures Valid() && Servers(clones[..], nclones) == ReapClones(old(Servers(clones[..], nclones)), 0)
    {
      ghost var v := Servers(clones[..], nclones);
      var i := 0;
      while i < nclones
        invariant Valid()
        invariant ReapClones(Servers(clones[..], nclones), i) == ReapClones(v, 0)
        decreases nclones - i
      {
        if clones[i].status == Deleted && clones[i].c == 0 {
          clones[i] := BLANK;
          if i == nclones - 1 {
            nclones := nclones - 1;
          }
        }
        i := i + 1;
      }
    }

    method HandleDeleteServers()
      requires Ok()
      modifies this, members, clones, table
      ensures Ok() && View() == System.Shared(old(View()), System.ReapPass)
    {
      System.SharedKeeps(View(), System.ReapPass);
      hide RegistryOk, ReapMembers, ReapClones;
      ReapMemberSlots();
      ReapCloneSlots();
    }

    /** The part of rebalance_hash that moves entries and adjusts the two counters. */
    method MoveShare(low: nat, high: nat)
      requires Valid() && low < MAXSERVERS && high < MAXSERVERS && low != high && size >= 0
      requires members[high].usage < SHORT && members[low].usage < SHORT
      modifies members, table
      ensures Valid()
      ensures var v, t := old(Servers(members[..], nmembers)), old(table[..]);
        var want := HashesToMove(v.slots[high].usage, size);
        var moved := if Count(t, high) < want then Count(t, high) else want;
        members[..] == Transfer(v, high, low, moved).slots && table[..] == Move(t, high, low, want)
    {
      hide Count, Move;
      var want := HashesToMove(members[high].usage, size);
      MoveEntries(members, table, high, low, want);
    }

    /** rebalance_hash; sorted is what qsort makes of the subjects. */
    method RebalanceHash(sorted: seq<Server>)
      requires Ok() && SortedByLoad(sorted, Subjects(members[..], nmembers))
      modifies members, table
      ensures Ok() && View() == System.Shared(old(View()), System.RebalancePass(sorted))
    {
      ghost var b := View();
      System.SharedKeeps(b, System.RebalancePass(sorted));
      RebalanceCases(b, sorted);
      hide RegistryOk, Subjects, Count, Move, Transfer, HashesToMove, System.Shared;
      var subjects := CollectSubjects(members, nmembers);
      if |subjects| <= 1 {
        return;
      }
      var low := sorted[0].id;
      var high := sorted[|sorted| - 1].id;
      if members[high].eload - members[low].eload >= threshold {
        MoveShare(low, high);
        assert Transfer(b.members, high, low, ShareMoved(b, high)).count == nmembers by {
          TransferKeepsCount(b.members, high, low, ShareMoved(b, high));
        }
      }
    }

    /** How many entries a rebalance moves from the member. */
    ghost static function ShareMoved(b: Balancer, high: nat): nat
      requires high < |b.members.slots| && b.size >= 0
    {
      var want := HashesToMove(b.members.slots[high].usage, b.size);
      if Count(b.table, high) < want then Count(b.table, high) else want
    }

    lemma {:induction false} TransferKeepsCount(v: Servers, high: nat, low: nat, moved: nat)
      requires high < |v.slots| && low < |v.slots|
      ensures Transfer(v, high, low, moved).count == v.count
    {
    }

    /** The pass, case by case, and what it relies on. */
    lemma {:induction false} RebalanceCases(b: Balancer, sorted: seq<Server>)
      requires RegistryOk(b) && System.SettingsOk(b) && SortedByLoad(sorted, Subjects(b.members.slots, b.members.count))
      ensures System.SharedPossible(b, System.RebalancePass(sorted))
      ensures |sorted| <= 1 ==> System.Shared(b, System.RebalancePass(sorted)) == b
      ensures |sorted| > 1 ==>
        var low, high := sorted[0].id, sorted[|sorted| - 1].id;
        && low < MAXSERVERS && high < MAXSERVERS && low != high
        && b.members.slots[low].usage < SHORT && b.members.slots[high].usage < SHORT
        && System.Shared(b, System.RebalancePass(sorted)) ==
             if b.members.slots[high].eload - b.members.slots[low].eload < b.threshold then b
             else b.(members := Transfer(b.members, high, low, ShareMoved(b, high)),
                     table := Move(b.table, high, low, HashesToMove(b.members.slots[high].usage, b.size)))
    {
      SortedIdsInRange(b.members, sorted);
      if |sorted| > 1 {
        SortedDistinct(b.members, sorted, 0, |sorted| - 1);
        CountBound(b.table, sorted[0].id);
        CountBound(b.table, sorted[|sorted| - 1].id);
      }
      hide Subjects, Count, Move, Transfer, HashesToMove, SlotsOk;
    }

    lemma {:induction false} OnCountKeepsCount(v: Servers, f: Server -> Server)
      ensures OnCount(v, f).count == v.count
    {
    }

    /** calc_effective_load. */
    method CalcEffectiveLoad()
      requires Ok()
      modifies this`overallLoad, members, clones
      ensures Ok() && View() == System.Shared(old(View()), System.LoadPass)
    {
      ghost var b := View();
      System.SharedKeeps(b, System.LoadPass);
      TotalsPositive(b.members.slots, nmembers);
      hide RegistryOk, EffectiveLoad, EffectiveCloneLoad, TotalLoad, TotalMax, OnCount;
      var load, max := MemberLoads(members, nmembers);
      CloneLoads(clones, nclones);
      if load > 0.0 {
        overallLoad := (load / max * 100.0).Floor;
      }
      assert OnCount(b.members, EffectiveLoad).count == nmembers && OnCount(b.clones, EffectiveCloneLoad).count == nclones
        by { OnCountKeepsCount(b.members, EffectiveLoad); OnCountKeepsCount(b.clones, EffectiveCloneLoad); }
    }
  }
}
