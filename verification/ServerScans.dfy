/** The loops over server slots and over the hash table, on arrays updated in place. Each
    is proved to compute the function that Selection, Registry or Monitor reasons about. */
module ServerScans {
  import opened UriHash
  import opened Registry
  import opened Selection
  import opened Monitor

  /** One scan of get_available_servers. */
  method Collect(slots: array<Server>, n: nat, strict: bool, standbys: bool) returns (list: seq<nat>)
    requires n <= slots.Length
    ensures list == Scan(slots[..], n, strict, standbys)
  {
    list := [];
    for i := 0 to n
      invariant list == Scan(slots[..], i, strict, standbys)
    {
      if slots[i].c >= slots[i].maxc || slots[i].status != Enabled || (!standbys && slots[i].standby) {
        continue;
      }
      if strict && slots[i].eload > 100 {
        continue;
      }
      list := list + [i];
    }
  }

  /** The loop of set_rr_server. */
  method FindSuccessor(slots: array<Server>, list: seq<nat>, cursor: nat) returns (next: nat)
    requires forall i :: i in list ==> i < slots.Length
    ensures next == Successor(slots[..], list, cursor)
  {
    next := cursor;
    for i := 0 to |list|
      invariant next == cursor && cursor !in list[..i]
    {
      if list[i] == cursor {
        var j := (i + 1) % |list|;
        assert list[j] in list;
        PositionAt(list, cursor, i);
        return slots[list[j]].id;
      }
      assert list[..i + 1] == list[..i] + [list[i]];
    }
    assert list[..|list|] == list;
  }

  lemma {:induction false} PositionAt(list: seq<nat>, x: nat, i: nat)
    requires i < |list| && list[i] == x && x !in list[..i]
    ensures Position(list, x) == i
  {
  }

  /** The member or clone half of set_lc_server, after the round robin. */
  method FindLeastConnections(slots: array<Server>, list: seq<nat>, cursor: nat) returns (best: nat)
    requires cursor < slots.Length && Listed(slots[..], list)
    ensures best == Least(slots[..], list, cursor, Connections)
  {
    best := cursor;
    for k := 0 to |list|
      invariant best == Least(slots[..], list[..k], cursor, Connections)
    {
      assert list[..k + 1][..k] == list[..k];
      if slots[list[k]].c < slots[best].c {
        best := slots[list[k]].id;
      }
    }
    assert list[..|list|] == list;
  }

  /** The member or clone half of set_ll_server. */
  method FindLeastLoad(slots: array<Server>, list: seq<nat>, cursor: nat, weight: real) returns (best: nat)
    requires cursor < slots.Length && Listed(slots[..], list)
    ensures best == Least(slots[..], list, cursor, WeightedLoad(weight))
  {
    best := cursor;
    for k := 0 to |list|
      invariant best == Least(slots[..], list[..k], cursor, WeightedLoad(weight))
    {
      assert list[..k + 1][..k] == list[..k];
      var candidate := slots[list[k]];
      if candidate.load + (candidate.c as real) * weight < slots[best].load + (slots[best].c as real) * weight {
        best := candidate.id;
      }
    }
    assert list[..|list|] == list;
  }

  /** The search of create_balancer_server for a slot to reuse. */
  method FindFree(slots: array<Server>, n: nat) returns (slot: nat)
    requires n <= slots.Length
    ensures slot == FirstFree(slots[..], n)
  {
    slot := 0;
    while slot < n && slots[slot].status != Free
      invariant slot <= n && forall k :: 0 <= k < slot ==> slots[k].status != Free
    {
      slot := slot + 1;
    }
    FirstFreeIs(slots[..], n, slot);
  }

  lemma {:induction false} FirstFreeIs(slots: seq<Server>, n: nat, i: nat)
    requires i <= n <= |slots| && (forall k :: 0 <= k < i ==> slots[k].status != Free)
    requires i < n ==> slots[i].status == Free
    ensures FirstFree(slots, n) == i
  {
  }

  /** The counting of set_cloned_state. */
  method AnyEnabled(slots: array<Server>, n: nat) returns (some: bool)
    requires slots.Length == MAXSERVERS && n <= MAXSERVERS
    ensures some <==> SomeEnabled(Servers(slots[..], n))
  {
    var others := 0;
    for i := 0 to n
      invariant 0 <= others <= i
      invariant others == i <==> forall k :: 0 <= k < i ==> slots[k].status != Enabled
    {
      if slots[i].status != Enabled {
        others := others + 1;
      }
    }
    some := others != n;
  }

  /** A command on all servers, in place. */
  method CommandAll(slots: array<Server>, n: nat, f: Server -> Server)
    requires slots.Length == MAXSERVERS && n <= MAXSERVERS
    modifies slots
    ensures slots[..] == OnAll(Servers(old(slots[..]), n), f).slots
  {
    ghost var v := Servers(slots[..], n);
    for i := 0 to n
      invariant forall k :: 0 <= k < i ==> slots[k] == OnAll(v, f).slots[k]
      invariant forall k :: i <= k < MAXSERVERS ==> slots[k] == v.slots[k]
    {
      if slots[i].status != Free && slots[i].status != Deleted {
        slots[i] := f(slots[i]);
      }
    }
    assert forall k :: n <= k < MAXSERVERS ==> OnAll(v, f).slots[k] == v.slots[k];
  }

  /** The inner loop of handle_delete_servers. */
  method UnassignEntries(table: array<int>, m: int)
    modifies table
    ensures table[..] == Unassign(old(table[..]), m)
  {
    for j := 0 to table.Length
      invariant forall k :: 0 <= k < j ==> table[k] == if old(table[k]) == m then HASH_VAL_FREE else old(table[k])
      invariant forall k :: j <= k < table.Length ==> table[k] == old(table[k])
    {
      if table[j] == m {
        table[j] := HASH_VAL_FREE;
      }
    }
  }

  /** The copying loop of rebalance_hash. */
  method CollectSubjects(slots: array<Server>, n: nat) returns (subjects: seq<Server>)
    requires n <= slots.Length
    ensures subjects == Subjects(slots[..], n)
  {
    subjects := [];
    for i := 0 to n
      invariant subjects == Subjects(slots[..], i)
    {
      if slots[i].status == Enabled && !slots[i].standby {
        subjects := subjects + [slots[i]];
      }
    }
  }

  /** Entries beyond the one at which the move is complete stay as they are. */
  lemma {:induction false} MoveStops(t: seq<int>, high: int, low: int, k: nat, i: nat)
    requires i <= |t| && (Count(t[..i], high) >= k || i == |t|)
    ensures Move(t, high, low, k) == Move(t[..i], high, low, k) + t[i..]
  {
    if i == |t| {
      assert t[..i] == t;
    } else {
      var init := t[..|t| - 1];
      assert init[..i] == t[..i];
      MoveStops(init, high, low, k, i);
      CountMonotone(init, high, i);
      assert t[i..] == init[i..] + [t[|t| - 1]];
    }
  }

  lemma {:induction false} CountMonotone(t: seq<int>, v: int, i: nat)
    requires i <= |t|
    ensures Count(t[..i], v) <= Count(t, v)
  {
    if i < |t| {
      CountMonotone(t[..|t| - 1], v, i);
      assert t[..|t| - 1][..i] == t[..i];
    } else {
      assert t[..i] == t;
    }
  }

  /** One counter down, the other up, after so many moves. */
  method ShiftUsage(slots: array<Server>, high: nat, low: nat, ghost v: Servers, ghost moved: nat)
    requires high != low && high < slots.Length && low < slots.Length && slots.Length == |v.slots|
    requires slots[..] == Transfer(v, high, low, moved).slots
    modifies slots
    ensures slots[..] == Transfer(v, high, low, moved + 1).slots
  {
    TransferOneMore(v, high, low, moved);
    hide Transfer;
    slots[high] := slots[high].(usage := (slots[high].usage - 1) % SHORT);
    slots[low] := slots[low].(usage := (slots[low].usage + 1) % SHORT);
  }

  /** The moving loop of rebalance_hash: every move lowers one counter and raises the other,
      and the loop stops when enough entries have moved. */
  method MoveEntries(slots: array<Server>, table: array<int>, high: nat, low: nat, want: nat)
    requires high != low && high < slots.Length && low < slots.Length
    requires slots[high].usage < SHORT && slots[low].usage < SHORT
    modifies slots, table
    ensures table[..] == Move(old(table[..]), high, low, want)
    ensures var have := Count(old(table[..]), high);
      slots[..] == Transfer(Servers(old(slots[..]), 0), high, low, if have < want then have else want).slots
  {
    ghost var t, v := table[..], Servers(slots[..], 0);
    ghost var moved := 0;
    TransferNone(v, high, low);
    var left, i := want, 0;
    hide Transfer;
    while i < table.Length && left > 0
      invariant i <= table.Length && |t| == table.Length && left + moved == want
      invariant table[..i] == Move(t[..i], high, low, want)
      invariant table[i..] == t[i..]
      invariant moved == if Count(t[..i], high) < want then Count(t[..i], high) else want
      invariant slots[..] == Transfer(v, high, low, moved).slots && high < slots.Length && low < slots.Length
    {
      assert t[..i + 1][..i] == t[..i];
      assert table[i] == t[i];
      assert table[i..][1..] == t[i + 1..];
      if table[i] == high {
        table[i] := low;
        left := left - 1;
        ShiftUsage(slots, high, low, v, moved);
        moved := moved + 1;
      }
      i := i + 1;
    }
    MoveStops(t, high, low, want, i);
    CountMonotone(t, high, i);
    assert i == |t| ==> t[..i] == t;
    assert table[..] == table[..i] + table[i..];
  }

  /** The first loop of calc_effective_load. */
  method MemberLoads(slots: array<Server>, n: nat) returns (load: real, max: real)
    requires n <= slots.Length
    modifies slots
    ensures slots[..] == OnCount(Servers(old(slots[..]), n), EffectiveLoad).slots
    ensures load == TotalLoad(old(slots[..]), n) && max == TotalMax(old(slots[..]), n)
  {
    ghost var v := slots[..];
    load, max := 0.0, 0.0;
    for i := 0 to n
      invariant forall k :: 0 <= k < i ==> slots[k] == EffectiveLoad(v[k])
      invariant forall k :: i <= k < slots.Length ==> slots[k] == v[k]
      invariant load == TotalLoad(v, i) && max == TotalMax(v, i)
    {
      if slots[i].load <= 0.0 || slots[i].maxl <= 0.0 {
        slots[i] := slots[i].(eload := 0);
      } else {
        slots[i] := slots[i].(eload := (slots[i].load / slots[i].maxl * 100.0).Floor);
        load := load + slots[i].load;
        max := max + slots[i].maxl;
      }
    }
  }

  /** The second loop of calc_effective_load. */
  method CloneLoads(slots: array<Server>, n: nat)
    requires n <= slots.Length
    modifies slots
    ensures slots[..] == OnCount(Servers(old(slots[..]), n), EffectiveCloneLoad).slots
  {
    ghost var v := slots[..];
    for i := 0 to n
      invariant forall k :: 0 <= k < i ==> slots[k] == EffectiveCloneLoad(v[k])
      invariant forall k :: i <= k < slots.Length ==> slots[k] == v[k]
    {
      if slots[i].load < 0.0 || slots[i].maxl <= 0.0 {
        slots[i] := slots[i].(eload := 0);
      } else {
        slots[i] := slots[i].(eload := (slots[i].load / slots[i].maxl * 100.0).Floor);
      }
    }
  }
}
