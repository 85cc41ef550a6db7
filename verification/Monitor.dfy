/** The passes of the monitor process over the shared structure: freeing deleted servers,
    rebalancing the hash table, and computing loads. */
module Monitor {
  import opened Modular
  import opened UriHash
  import opened Registry

  // ----- handle_delete_servers

  predicate Reapable(s: Server) {
    s.status == Deleted && s.c == 0
  }

  /** Every entry that names m is unassigned. */
  function Unassign(table: seq<int>, m: int): (t: seq<int>)
    ensures |t| == |table|
    ensures forall i :: 0 <= i < |t| ==> t[i] == if table[i] == m then HASH_VAL_FREE else table[i]
  {
    seq(|table|, i requires 0 <= i < |table| => if table[i] == m then HASH_VAL_FREE else table[i])
  }

  /** A slot is wiped; the last one also shortens the array. */
  function Wipe(v: Servers, i: nat): Servers
    requires i < v.count <= |v.slots|
  {
    Servers(v.slots[i := BLANK], if i == v.count - 1 then v.count - 1 else v.count)
  }

  function ReapMember(v: Servers, table: seq<int>, i: nat): (Servers, seq<int>)
    requires i < v.count <= |v.slots|
  {
    if Reapable(v.slots[i]) then (Wipe(v, i), Unassign(table, i)) else (v, table)
  }

  /** The pass over the members from slot i on; the count may shrink under it. */
  function ReapMembers(v: Servers, table: seq<int>, i: nat): (Servers, seq<int>)
    requires v.count <= |v.slots|
    decreases v.count - i
  {
    if i >= v.count then (v, table)
    else
      var (w, t) := ReapMember(v, table, i);
      ReapMembers(w, t, i + 1)
  }

  function ReapClones(v: Servers, i: nat): Servers
    requires v.count <= |v.slots|
    decreases v.count - i
  {
    if i >= v.count then v
    else ReapClones(if Reapable(v.slots[i]) then Wipe(v, i) else v, i + 1)
  }

  lemma {:induction false} WipeKeepsSlots(v: Servers, i: nat)
    requires SlotsOk(v) && i < v.count
    ensures SlotsOk(Wipe(v, i))
  {
  }

  lemma {:induction false} ReapMemberKeeps(v: Servers, table: seq<int>, i: nat)
    requires SlotsOk(v) && HashOk(v, table) && i < v.count
    ensures SlotsOk(ReapMember(v, table, i).0) && HashOk(ReapMember(v, table, i).0, ReapMember(v, table, i).1)
  {
    if Reapable(v.slots[i]) {
      WipeKeepsSlots(v, i);
      var t := Unassign(table, i);
      forall m | 0 <= m < MAXSERVERS ensures Wipe(v, i).slots[m].usage == Count(t, m) {
        if m == i { CountNone(t, i); } else { CountSame(t, table, m); }
      }
    }
  }

  /** What a pass does: a slot is either untouched or was deleted with no connection left
      and is now free; an entry is either untouched or named such a slot. */
  predicate Reaped(v: Servers, w: Servers) {
    && |v.slots| == |w.slots|
    && forall k :: 0 <= k < |v.slots| ==> w.slots[k] == v.slots[k] || (Reapable(v.slots[k]) && w.slots[k] == BLANK)
  }

  lemma {:induction false} ReapMembersKeeps(v: Servers, table: seq<int>, i: nat)
    requires SlotsOk(v) && HashOk(v, table)
    ensures var (w, t) := ReapMembers(v, table, i);
      && SlotsOk(w) && HashOk(w, t) && Reaped(v, w)
      && (forall k :: i <= k < MAXSERVERS ==> !Reapable(w.slots[k]))
      && (forall j :: 0 <= j < |t| ==>
            t[j] == table[j] || (t[j] == HASH_VAL_FREE && 0 <= table[j] < MAXSERVERS && Reapable(v.slots[table[j]])))
    decreases v.count - i
  {
    if i < v.count {
      ReapMemberKeeps(v, table, i);
      var (w, t) := ReapMember(v, table, i);
      ReapMembersKeeps(w, t, i + 1);
      ReapMembersSpares(w, t, i + 1, i);
    }
  }

  /** The pass from slot i on does not touch the slots before it. */
  lemma {:induction false} ReapMembersSpares(v: Servers, table: seq<int>, i: nat, k: nat)
    requires v.count <= |v.slots| && k < i && k < |v.slots|
    ensures |ReapMembers(v, table, i).0.slots| == |v.slots| && ReapMembers(v, table, i).0.slots[k] == v.slots[k]
    decreases v.count - i
  {
    if i < v.count {
      var (w, t) := ReapMember(v, table, i);
      ReapMembersSpares(w, t, i + 1, k);
    }
  }

  lemma {:induction false} ReapClonesKeeps(v: Servers, i: nat)
    requires SlotsOk(v)
    ensures var w := ReapClones(v, i);
      SlotsOk(w) && Reaped(v, w) && (forall k :: i <= k < MAXSERVERS ==> !Reapable(w.slots[k]))
    decreases v.count - i
  {
    if i < v.count {
      var w := if Reapable(v.slots[i]) then Wipe(v, i) else v;
      if Reapable(v.slots[i]) { WipeKeepsSlots(v, i); }
      ReapClonesKeeps(w, i + 1);
      ReapClonesSpares(w, i + 1, i);
    }
  }

  lemma {:induction false} ReapClonesSpares(v: Servers, i: nat, k: nat)
    requires v.count <= |v.slots| && k < i && k < |v.slots|
    ensures |ReapClones(v, i).slots| == |v.slots| && ReapClones(v, i).slots[k] == v.slots[k]
    decreases v.count - i
  {
    if i < v.count {
      ReapClonesSpares(if Reapable(v.slots[i]) then Wipe(v, i) else v, i + 1, k);
    }
  }

  /** The count after a pass: one less exactly when the last server was freed. */
  lemma {:induction false} ReapCounts(v: Servers, table: seq<int>, i: nat)
    requires v.count <= |v.slots|
    ensures var shorter := i < v.count && Reapable(v.slots[v.count - 1]);
      && ReapMembers(v, table, i).0.count == (if shorter then v.count - 1 else v.count)
      && ReapClones(v, i).count == (if shorter then v.count - 1 else v.count)
    decreases v.count - i
  {
    if i < v.count {
      var (w, t) := ReapMember(v, table, i);
      ReapCounts(w, t, i + 1);
      assert w == if Reapable(v.slots[i]) then Wipe(v, i) else v;
    }
  }

  // ----- rebalance_hash

  /** The members a rebalance looks at. */
  predicate Rebalanced(s: Server) {
    s.status == Enabled && !s.standby
  }

  /** Copies of the eligible members among the first n slots, in slot order. */
  function Subjects(slots: seq<Server>, n: nat): (r: seq<Server>)
    requires n <= |slots|
    ensures |r| <= n && forall s :: s in r ==> Rebalanced(s) && s in slots[..n]
  {
    if n == 0 then []
    else Subjects(slots, n - 1) + (if Rebalanced(slots[n - 1]) then [slots[n - 1]] else [])
  }

  /** What qsort returns: the same servers in order of effective load. */
  predicate SortedByLoad(sorted: seq<Server>, subjects: seq<Server>) {
    && |sorted| == |subjects| && multiset(sorted) == multiset(subjects)
    && forall i, j :: 0 <= i < j < |sorted| ==> sorted[i].eload <= sorted[j].eload
  }

  /** The first k entries naming high are made to name low. */
  function Move(table: seq<int>, high: int, low: int, k: nat): (t: seq<int>)
    ensures |t| == |table|
  {
    if table == [] then []
    else
      var init := table[..|table| - 1];
      var last := table[|table| - 1];
      Move(init, high, low, k) + [if last == high && Count(init, high) < k then low else last]
  }

  /** A move of k entries: min(k, count) entries go from high to low, the first ones, and
      every other entry stays. */
  lemma {:induction false} MoveCounts(table: seq<int>, high: int, low: int, k: nat, v: int)
    requires high != low
    ensures var moved := if Count(table, high) < k then Count(table, high) else k;
      Count(Move(table, high, low, k), v) ==
        if v == high then Count(table, high) - moved else if v == low then Count(table, low) + moved else Count(table, v)
    ensures forall i :: 0 <= i < |table| ==>
      Move(table, high, low, k)[i] == table[i] || (table[i] == high && Move(table, high, low, k)[i] == low)
  {
    if table != [] {
      var init := table[..|table| - 1];
      MoveCounts(init, high, low, k, v);
      MoveCounts(init, high, low, k, high);
      assert Move(table, high, low, k)[..|table| - 1] == Move(init, high, low, k);
    }
  }

  /** Which entries a move takes: those of high among the first k of them. */
  lemma {:induction false} MoveAt(table: seq<int>, high: int, low: int, k: nat, i: nat)
    requires i < |table|
    ensures Move(table, high, low, k)[i] == if table[i] == high && Count(table[..i], high) < k then low else table[i]
  {
    var init := table[..|table| - 1];
    if i < |init| {
      MoveAt(init, high, low, k, i);
      assert init[..i] == table[..i];
    } else {
      assert init == table[..i];
    }
  }

  /** The number of entries to move: the given percentage of the usage, rounded down. */
  function HashesToMove(usage: nat, size: nat): (k: nat)
    ensures 100 * k <= usage * size < 100 * (k + 1)
  {
    usage * size / 100
  }

  lemma {:induction false} ShareFits(usage: nat, size: nat)
    requires size <= 100
    ensures HashesToMove(usage, size) <= usage
  {
    assert usage * size <= usage * 100;
  }

  /** The usage counters after so many moves, one down and one up each, in 16 bits. */
  function Transfer(v: Servers, high: nat, low: nat, moved: nat): Servers
    requires high < |v.slots| && low < |v.slots|
  {
    var drained := v.slots[high := v.slots[high].(usage := (v.slots[high].usage - moved) % SHORT)];
    v.(slots := drained[low := drained[low].(usage := (drained[low].usage + moved) % SHORT)])
  }

  lemma {:induction false} ModAdd(x: int, c: int)
    ensures (x % SHORT + c) % SHORT == (x + c) % SHORT
  {
    assert x + c == (x % SHORT + c) + (x / SHORT) * SHORT;
    ModShift(x % SHORT + c, x / SHORT, SHORT);
  }

  lemma {:induction false} TransferNone(v: Servers, high: nat, low: nat)
    requires high < |v.slots| && low < |v.slots| && v.slots[high].usage < SHORT && v.slots[low].usage < SHORT
    ensures Transfer(v, high, low, 0) == v
  {
    ModUnique(v.slots[high].usage, 0, v.slots[high].usage, SHORT);
    ModUnique(v.slots[low].usage, 0, v.slots[low].usage, SHORT);
  }

  /** One entry more: one counter down, then the other up. */
  lemma {:induction false} TransferOneMore(v: Servers, high: nat, low: nat, moved: nat)
    requires high < |v.slots| && low < |v.slots| && high != low
    ensures var s := Transfer(v, high, low, moved).slots;
      var d := s[high := s[high].(usage := (s[high].usage - 1) % SHORT)];
      Transfer(v, high, low, moved + 1).slots == d[low := d[low].(usage := (d[low].usage + 1) % SHORT)]
  {
    ModAdd(v.slots[high].usage - moved, -1);
    ModAdd(v.slots[low].usage + moved, 1);
  }

  function Shifted(n: nat, m: int, high: int, low: int, moved: nat): int {
    if m == high then n - moved else if m == low then n + moved else n
  }

  lemma {:induction false} TransferKeeps(v: Servers, high: nat, low: nat, moved: nat)
    requires SlotsOk(v) && high < MAXSERVERS && low < MAXSERVERS && high != low
    requires moved <= v.slots[high].usage < SHORT && v.slots[low].usage + moved < SHORT
    ensures var w := Transfer(v, high, low, moved);
      (&& SlotsOk(w)
       && (forall m :: 0 <= m < MAXSERVERS ==> w.slots[m] == v.slots[m].(usage := w.slots[m].usage))
       && (forall m :: 0 <= m < MAXSERVERS ==> w.slots[m].usage == Shifted(v.slots[m].usage, m, high, low, moved)))
  {
  }

  /** rebalance_hash, given what qsort makes of the subjects. */
  function Rebalance(b: Balancer, sorted: seq<Server>): Balancer
    requires |b.members.slots| == MAXSERVERS
    requires forall s :: s in sorted ==> s.id < MAXSERVERS
    requires b.size >= 0
  {
    if |sorted| <= 1 then b
    else
      var low := sorted[0].id;
      var high := sorted[|sorted| - 1].id;
      var slots := b.members.slots;
      if slots[high].eload - slots[low].eload < b.threshold then b
      else
        var want := HashesToMove(slots[high].usage, b.size);
        var have := Count(b.table, high);
        var moved := if have < want then have else want;
        b.(members := Transfer(b.members, high, low, moved), table := Move(b.table, high, low, want))
  }

  lemma {:induction false} SubjectsDistinct(v: Servers, n: nat)
    requires SlotsOk(v) && n <= v.count
    ensures forall i, j :: 0 <= i < j < |Subjects(v.slots, n)| ==> Subjects(v.slots, n)[i].id < Subjects(v.slots, n)[j].id
    ensures forall i :: 0 <= i < |Subjects(v.slots, n)| ==>
      var s := Subjects(v.slots, n)[i]; s.id < n && v.slots[s.id] == s
  {
    if n > 0 {
      SubjectsDistinct(v, n - 1);
    }
  }

  /** Two positions of a permutation hold different servers if the original does. */
  lemma {:induction false} SortedDistinct(v: Servers, sorted: seq<Server>, i: nat, j: nat)
    requires SlotsOk(v) && SortedByLoad(sorted, Subjects(v.slots, v.count)) && i < j < |sorted|
    ensures sorted[i].id != sorted[j].id
    ensures Rebalanced(sorted[i]) && sorted[i].id < v.count && v.slots[sorted[i].id] == sorted[i]
    ensures Rebalanced(sorted[j]) && sorted[j].id < v.count && v.slots[sorted[j].id] == sorted[j]
  {
    var subjects := Subjects(v.slots, v.count);
    SubjectsDistinct(v, v.count);
    assert sorted[i] in multiset(subjects) && sorted[j] in multiset(subjects);
    if sorted[i] == sorted[j] {
      TwiceInSequence(sorted, i, j);
      OnceInSequence(subjects, sorted[i]);
      assert false;
    }
  }

  lemma {:induction false} TwiceInSequence<T>(s: seq<T>, i: nat, j: nat)
    requires i < j < |s| && s[i] == s[j]
    ensures multiset(s)[s[i]] >= 2
  {
    assert s == s[..j] + s[j..];
    assert s[..j][i] in multiset(s[..j]) && s[j..][0] in multiset(s[j..]);
  }

  lemma {:induction false} OnceInSequence(s: seq<Server>, x: Server)
    requires forall i, j :: 0 <= i < j < |s| ==> s[i].id < s[j].id
    ensures multiset(s)[x] <= 1
  {
    if s != [] {
      var init := s[..|s| - 1];
      OnceInSequence(init, x);
      assert s == init + [s[|s| - 1]];
      if s[|s| - 1] == x {
        assert x !in init;
      }
    }
  }

  /** There are two servers to compare, and their loads are far enough apart. */
  predicate Triggered(b: Balancer, sorted: seq<Server>) {
    && |b.members.slots| == MAXSERVERS && |sorted| > 1
    && (forall s :: s in sorted ==> s.id < MAXSERVERS)
    && b.members.slots[sorted[|sorted| - 1].id].eload - b.members.slots[sorted[0].id].eload >= b.threshold
  }

  /** Rebalancing. It acts on two different servers, the least and the most loaded of the
      eligible ones. With a percentage up to 100 it moves exactly the rounded-down share of
      the entries of the one to the other; every other entry stays, so the number of
      assigned entries is conserved. */
  lemma {:induction false} RebalanceMovesShare(b: Balancer, sorted: seq<Server>)
    requires RegistryOk(b) && SortedByLoad(sorted, Subjects(b.members.slots, b.members.count))
    requires 0 <= b.size <= 100 && Triggered(b, sorted)
    ensures var low, high := sorted[0].id, sorted[|sorted| - 1].id;
      var t := Rebalance(b, sorted).table;
      var k := HashesToMove(Count(b.table, high), b.size);
      (&& low != high && |t| == |b.table|
       && Rebalanced(b.members.slots[low]) && Rebalanced(b.members.slots[high])
       && k <= Count(b.table, high)
       && (forall m :: Count(t, m) == Shifted(Count(b.table, m), m, high, low, k))
       && (forall i :: 0 <= i < |t| ==> t[i] == b.table[i] || (b.table[i] == high && t[i] == low)))
  {
    SortedDistinct(b.members, sorted, 0, |sorted| - 1);
    var low, high := sorted[0].id, sorted[|sorted| - 1].id;
    var k := HashesToMove(Count(b.table, high), b.size);
    ShareFits(Count(b.table, high), b.size);
    hide HashesToMove, Count, Move, SortedByLoad;
    forall m: int ensures Count(Move(b.table, high, low, k), m) == Shifted(Count(b.table, m), m, high, low, k) {
      MoveCounts(b.table, high, low, k, m);
    }
    MoveCounts(b.table, high, low, k, high);
  }

  /** Every eligible member is in what qsort returns, so it lies between the two ends. */
  lemma {:induction false} EndsAreExtremes(v: Servers, sorted: seq<Server>, i: nat)
    requires SlotsOk(v) && SortedByLoad(sorted, Subjects(v.slots, v.count)) && i < v.count && Rebalanced(v.slots[i])
    ensures sorted != [] && sorted[0].eload <= v.slots[i].eload <= sorted[|sorted| - 1].eload
  {
    SubjectIsListed(v.slots, v.count, i);
    assert v.slots[i] in multiset(Subjects(v.slots, v.count));
    assert v.slots[i] in multiset(sorted);
    var j :| 0 <= j < |sorted| && sorted[j] == v.slots[i];
  }

  lemma {:induction false} SubjectIsListed(slots: seq<Server>, n: nat, i: nat)
    requires i < n <= |slots| && Rebalanced(slots[i])
    ensures slots[i] in Subjects(slots, n)
  {
    if i < n - 1 { SubjectIsListed(slots, n - 1, i); }
  }

  /** Rebalancing, said of the servers and the table alone: it takes from the most loaded of the
      enabled plain members, and gives to the least loaded, the given percentage of the
      entries, rounded down; and nothing else changes hands. */
  lemma {:induction false} RebalanceExact(b: Balancer, sorted: seq<Server>)
    requires RegistryOk(b) && SortedByLoad(sorted, Subjects(b.members.slots, b.members.count))
    requires 0 <= b.size <= 100 && Triggered(b, sorted)
    ensures var low, high := sorted[0].id, sorted[|sorted| - 1].id;
      var t := Rebalance(b, sorted).table;
      var k := Count(b.table, high) - Count(t, high);
      (&& low != high && low < b.members.count && high < b.members.count
       && Rebalanced(b.members.slots[low]) && Rebalanced(b.members.slots[high])
       && (forall i :: 0 <= i < b.members.count && Rebalanced(b.members.slots[i]) ==>
             b.members.slots[low].eload <= b.members.slots[i].eload <= b.members.slots[high].eload)
       && 0 <= 100 * k <= Count(b.table, high) * b.size < 100 * (k + 1)
       && Count(t, low) == Count(b.table, low) + k
       && (forall m :: m != low && m != high ==> Count(t, m) == Count(b.table, m))
       && |t| == |b.table| && (forall i :: 0 <= i < |t| ==> t[i] == b.table[i] || (b.table[i] == high && t[i] == low)))
  {
    RebalanceMovesShare(b, sorted);
    SortedDistinct(b.members, sorted, 0, |sorted| - 1);
    hide Count, Move, SortedByLoad, Subjects, Rebalance, HashesToMove;
    forall i | 0 <= i < b.members.count && Rebalanced(b.members.slots[i])
      ensures sorted[0].eload <= b.members.slots[i].eload <= sorted[|sorted| - 1].eload
    {
      EndsAreExtremes(b.members, sorted, i);
    }
  }

  /** The rebalance keeps the registry and the accounting, and no counter wraps. */
  lemma {:induction false} RebalanceKeepsOk(b: Balancer, sorted: seq<Server>)
    requires RegistryOk(b) && SortedByLoad(sorted, Subjects(b.members.slots, b.members.count))
    requires 0 <= b.size <= 100
    ensures forall s :: s in sorted ==> s.id < MAXSERVERS
    ensures RegistryOk(Rebalance(b, sorted))
    ensures forall m :: 0 <= m < MAXSERVERS ==>
      Rebalance(b, sorted).members.slots[m] == b.members.slots[m].(usage := Rebalance(b, sorted).members.slots[m].usage)
  {
    SortedIdsInRange(b.members, sorted);
    hide HashesToMove, Count, Move, SortedByLoad, Transfer, SlotsOk, HashOk;
    if Triggered(b, sorted) {
      RebalanceMovesShare(b, sorted);
      var low, high := sorted[0].id, sorted[|sorted| - 1].id;
      var k := HashesToMove(Count(b.table, high), b.size);
      assert Rebalance(b, sorted) == b.(members := Transfer(b.members, high, low, k), table := Rebalance(b, sorted).table);
      MoveKeepsOk(b, Rebalance(b, sorted).table, high, low, k);
      hide Rebalance, Rebalanced;
    }
  }

  lemma {:induction false} MoveKeepsOk(b: Balancer, t: seq<int>, high: nat, low: nat, k: nat)
    requires RegistryOk(b) && |t| == |b.table| && high < MAXSERVERS && low < MAXSERVERS && high != low
    requires b.members.slots[low].status != Free && k <= Count(b.table, high)
    requires forall m :: Count(t, m) == Shifted(Count(b.table, m), m, high, low, k)
    requires forall i :: 0 <= i < |t| ==> t[i] == b.table[i] || (b.table[i] == high && t[i] == low)
    ensures RegistryOk(b.(members := Transfer(b.members, high, low, k), table := t))
    ensures |Transfer(b.members, high, low, k).slots| == MAXSERVERS
    ensures forall m :: 0 <= m < MAXSERVERS ==>
      Transfer(b.members, high, low, k).slots[m] == b.members.slots[m].(usage := Transfer(b.members, high, low, k).slots[m].usage)
  {
    UsageFits(b.members, b.table, t, high, low, k);
    TransferKeeps(b.members, high, low, k);
    var w := Transfer(b.members, high, low, k);
    assert |w.slots| == MAXSERVERS;
    hide Count, Transfer, SlotsOk;
    MoveKeepsHash(b.members, w, b.table, t, high, low, k);
    hide HashOk;
  }

  lemma {:induction false} UsageFits(v: Servers, table: seq<int>, t: seq<int>, high: nat, low: nat, k: nat)
    requires HashOk(v, table) && |t| == |table| && high < MAXSERVERS && low < MAXSERVERS && high != low
    requires k <= Count(table, high) && Count(t, low) == Count(table, low) + k
    ensures v.slots[high].usage == Count(table, high) < SHORT && v.slots[low].usage + k < SHORT
  {
    CountBound(table, high);
    CountBound(t, low);
  }

  lemma {:induction false} MoveKeepsHash(v: Servers, w: Servers, table: seq<int>, t: seq<int>, high: nat, low: nat, k: nat)
    requires HashOk(v, table) && |t| == |table| && |w.slots| == MAXSERVERS && high < MAXSERVERS && low < MAXSERVERS
    requires v.slots[low].status != Free
    requires forall m :: Count(t, m) == Shifted(Count(table, m), m, high, low, k)
    requires forall m :: 0 <= m < MAXSERVERS ==> w.slots[m] == v.slots[m].(usage := w.slots[m].usage)
    requires forall m :: 0 <= m < MAXSERVERS ==> w.slots[m].usage == Shifted(v.slots[m].usage, m, high, low, k)
    requires forall i :: 0 <= i < |t| ==> t[i] == table[i] || (table[i] == high && t[i] == low)
    ensures HashOk(w, t)
  {
  }

  lemma {:induction false} SortedIdsInRange(v: Servers, sorted: seq<Server>)
    requires SlotsOk(v) && SortedByLoad(sorted, Subjects(v.slots, v.count))
    ensures forall s :: s in sorted ==> s.id < MAXSERVERS
  {
    var subjects := Subjects(v.slots, v.count);
    SubjectsDistinct(v, v.count);
    forall s | s in sorted ensures s.id < MAXSERVERS {
      assert s in multiset(sorted);
      assert s in multiset(subjects);
    }
  }

  // ----- calc_effective_load

  /** A member that contributes to the load of the whole balancer. */
  predicate Contributes(s: Server) {
    s.load > 0.0 && s.maxl > 0.0
  }

  function EffectiveLoad(s: Server): Server {
    s.(eload := if Contributes(s) then (s.load / s.maxl * 100.0).Floor else 0)
  }

  /** Clones differ in that a load of zero is taken as it is. */
  function EffectiveCloneLoad(s: Server): Server {
    s.(eload := if s.load < 0.0 || s.maxl <= 0.0 then 0 else (s.load / s.maxl * 100.0).Floor)
  }

  function TotalLoad(slots: seq<Server>, n: nat): real
    requires n <= |slots|
  {
    if n == 0 then 0.0
    else TotalLoad(slots, n - 1) + (if Contributes(slots[n - 1]) then slots[n - 1].load else 0.0)
  }

  function TotalMax(slots: seq<Server>, n: nat): real
    requires n <= |slots|
  {
    if n == 0 then 0.0
    else TotalMax(slots, n - 1) + (if Contributes(slots[n - 1]) then slots[n - 1].maxl else 0.0)
  }

  /** The totals are sums: of one server its load and limit if it contributes, and of two rows
      of servers together the totals of both. */
  lemma {:induction false} TotalsAdd(slots: seq<Server>, others: seq<Server>)
    ensures TotalLoad(slots + others, |slots + others|) == TotalLoad(slots, |slots|) + TotalLoad(others, |others|)
    ensures TotalMax(slots + others, |slots + others|) == TotalMax(slots, |slots|) + TotalMax(others, |others|)
  {
    if others == [] {
      assert slots + others == slots;
    } else {
      var init, last := others[..|others| - 1], others[|others| - 1];
      TotalsAdd(slots, init);
      TotalsOfPrefix(slots + others, slots + init);
      TotalsOfPrefix(others, init);
      assert (slots + others)[|slots + others| - 1] == last;
    }
  }

  lemma {:induction false} TotalsOfOne(s: Server)
    ensures TotalLoad([s], 1) == if s.load > 0.0 && s.maxl > 0.0 then s.load else 0.0
    ensures TotalMax([s], 1) == if s.load > 0.0 && s.maxl > 0.0 then s.maxl else 0.0
  {
    assert TotalLoad([s], 0) == 0.0 && TotalMax([s], 0) == 0.0;
  }

  lemma {:induction false} TotalsOfPrefix(slots: seq<Server>, init: seq<Server>)
    requires init <= slots
    ensures TotalLoad(slots, |init|) == TotalLoad(init, |init|) && TotalMax(slots, |init|) == TotalMax(init, |init|)
  {
    TotalsAgree(slots, init, |init|);
  }

  lemma {:induction false} TotalsAgree(slots: seq<Server>, init: seq<Server>, n: nat)
    requires init <= slots && n <= |init|
    ensures TotalLoad(slots, n) == TotalLoad(init, n) && TotalMax(slots, n) == TotalMax(init, n)
  {
    if n > 0 { TotalsAgree(slots, init, n - 1); }
  }

  lemma {:induction false} TotalsPositive(slots: seq<Server>, n: nat)
    requires n <= |slots|
    ensures TotalLoad(slots, n) >= 0.0 && TotalMax(slots, n) >= 0.0
    ensures TotalLoad(slots, n) > 0.0 <==> TotalMax(slots, n) > 0.0
    ensures TotalLoad(slots, n) > 0.0 <==> exists i :: 0 <= i < n && Contributes(slots[i])
  {
    if n > 0 {
      TotalsPositive(slots, n - 1);
    }
  }

  function OverallLoad(slots: seq<Server>, n: nat, before: int): int
    requires n <= |slots|
  {
    if TotalLoad(slots, n) > 0.0 then
      TotalsPositive(slots, n);
      (TotalLoad(slots, n) / TotalMax(slots, n) * 100.0).Floor
    else before
  }

  lemma {:induction false} TotalsBetween(slots: seq<Server>, n: nat, lo: real, hi: real)
    requires n <= |slots|
    requires forall i :: 0 <= i < n && Contributes(slots[i]) ==> lo * slots[i].maxl <= slots[i].load <= hi * slots[i].maxl
    ensures lo * TotalMax(slots, n) <= TotalLoad(slots, n) <= hi * TotalMax(slots, n)
  {
    if n > 0 {
      TotalsBetween(slots, n - 1, lo, hi);
      var s := slots[n - 1];
      if Contributes(s) {
        assert lo * (TotalMax(slots, n - 1) + s.maxl) == lo * TotalMax(slots, n - 1) + lo * s.maxl;
        assert hi * (TotalMax(slots, n - 1) + s.maxl) == hi * TotalMax(slots, n - 1) + hi * s.maxl;
      } else {
        assert TotalLoad(slots, n) == TotalLoad(slots, n - 1) && TotalMax(slots, n) == TotalMax(slots, n - 1);
      }
    }
  }

  lemma {:induction false} RatioBetween(l: real, m: real, q: real)
    requires m > 0.0
    ensures l >= q * m ==> l / m >= q
    ensures l <= q * m ==> l / m <= q
    ensures (l / m) * m == l
  {
    var r := l / m;
    assert r * m == l;
    assert r < q ==> r * m < q * m;
    assert r > q ==> r * m > q * m;
  }

  lemma {:induction false} Scaled(l: real, m: real, lo: real, hi: real)
    requires m > 0.0 && lo <= l / m <= hi
    ensures lo * m <= l <= hi * m
  {
    RatioBetween(l, m, l / m);
    assert lo * m <= (l / m) * m <= hi * m;
  }

  lemma {:induction false} FloorMonotone(x: real, y: real)
    requires x <= y
    ensures x.Floor <= y.Floor
  {
  }

  /** A rounded-down percentage: so many hundredths of max fit into load. */
  predicate IsPercentage(p: int, load: real, max: real) {
    (p as real) * max <= 100.0 * load < (p as real + 1.0) * max
  }

  lemma {:induction false} FlooredRatio(load: real, max: real)
    requires max > 0.0
    ensures IsPercentage((load / max * 100.0).Floor, load, max)
  {
    var ratio := load / max;
    var x := ratio * 100.0;
    var p := x.Floor;
    assert ratio * max == load;
    assert x * max == 100.0 * (ratio * max);
    assert (p as real) <= x < p as real + 1.0;
    Ordered(p as real, x, max);
    StrictlyOrdered(x, p as real + 1.0, max);
  }

  lemma {:induction false} Ordered(x: real, y: real, m: real)
    requires x <= y && m > 0.0
    ensures x * m <= y * m
  {
  }

  lemma {:induction false} StrictlyOrdered(x: real, y: real, m: real)
    requires x < y && m > 0.0
    ensures x * m < y * m
  {
  }

  /** The effective load of a member is its load as a percentage of its limit, and zero without a
      load or a limit; of a clone the same, with a load of zero taken as it is. Nothing else
      about the server changes. */
  lemma {:induction false} EffectiveLoadExact(s: Server)
    ensures var e := EffectiveLoad(s).eload;
      EffectiveLoad(s) == s.(eload := e) && (if s.load > 0.0 && s.maxl > 0.0 then IsPercentage(e, s.load, s.maxl) else e == 0)
    ensures var e := EffectiveCloneLoad(s).eload;
      EffectiveCloneLoad(s) == s.(eload := e) && (if s.load >= 0.0 && s.maxl > 0.0 then IsPercentage(e, s.load, s.maxl) else e == 0)
  {
    if s.maxl > 0.0 { FlooredRatio(s.load, s.maxl); }
    hide IsPercentage;
  }

  /** The overall load is the load of all contributing members together as a percentage of what
      they can bear together, and stays as it was when none contributes. */
  lemma {:induction false} OverallLoadExact(slots: seq<Server>, n: nat, before: int)
    requires n <= |slots|
    ensures if exists i :: 0 <= i < n && Contributes(slots[i])
      then IsPercentage(OverallLoad(slots, n, before), TotalLoad(slots, n), TotalMax(slots, n))
      else OverallLoad(slots, n, before) == before
  {
    TotalsPositive(slots, n);
    if TotalLoad(slots, n) > 0.0 { FlooredRatio(TotalLoad(slots, n), TotalMax(slots, n)); }
    hide IsPercentage;
  }

  /** Of the contributing members among the first n slots, one with the smallest and one with
      the largest load ratio. */
  predicate Extremes(slots: seq<Server>, n: nat, least: nat, most: nat) {
    && least < n <= |slots| && most < n && Contributes(slots[least]) && Contributes(slots[most])
    && forall i :: 0 <= i < n && Contributes(slots[i]) ==>
         slots[least].load / slots[least].maxl <= slots[i].load / slots[i].maxl <= slots[most].load / slots[most].maxl
  }

  lemma {:induction false} ExtremesExist(slots: seq<Server>, n: nat) returns (least: nat, most: nat)
    requires n <= |slots| && exists i :: 0 <= i < n && Contributes(slots[i])
    ensures Extremes(slots, n, least, most)
  {
    if exists i :: 0 <= i < n - 1 && Contributes(slots[i]) {
      least, most := ExtremesExist(slots, n - 1);
      if Contributes(slots[n - 1]) {
        var ratio := slots[n - 1].load / slots[n - 1].maxl;
        if ratio < slots[least].load / slots[least].maxl { least := n - 1; }
        if ratio > slots[most].load / slots[most].maxl { most := n - 1; }
      }
    } else {
      least, most := n - 1, n - 1;
    }
  }

  /** The overall load is a true average: whenever some member contributes, it lies between
      the smallest and the largest effective load of the contributing members. */
  lemma {:induction false} OverallLoadIsAverage(slots: seq<Server>, n: nat, before: int) returns (least: nat, most: nat)
    requires n <= |slots| && exists i :: 0 <= i < n && Contributes(slots[i])
    ensures least < n && most < n && Contributes(slots[least]) && Contributes(slots[most])
    ensures EffectiveLoad(slots[least]).eload <= OverallLoad(slots, n, before) <= EffectiveLoad(slots[most]).eload
    ensures forall i :: 0 <= i < n && Contributes(slots[i]) ==>
      EffectiveLoad(slots[least]).eload <= EffectiveLoad(slots[i]).eload <= EffectiveLoad(slots[most]).eload
  {
    least, most := ExtremesExist(slots, n);
    BetweenExtremes(slots, n, before, least, most);
  }

  lemma {:induction false} BetweenExtremes(slots: seq<Server>, n: nat, before: int, least: nat, most: nat)
    requires Extremes(slots, n, least, most)
    ensures EffectiveLoad(slots[least]).eload <= OverallLoad(slots, n, before) <= EffectiveLoad(slots[most]).eload
    ensures forall i :: 0 <= i < n && Contributes(slots[i]) ==>
      EffectiveLoad(slots[least]).eload <= EffectiveLoad(slots[i]).eload <= EffectiveLoad(slots[most]).eload
  {
    var lo := slots[least].load / slots[least].maxl;
    var hi := slots[most].load / slots[most].maxl;
    forall i | 0 <= i < n && Contributes(slots[i])
      ensures lo * slots[i].maxl <= slots[i].load <= hi * slots[i].maxl
    {
      Scaled(slots[i].load, slots[i].maxl, lo, hi);
    }
    TotalsBetween(slots, n, lo, hi);
    TotalsPositive(slots, n);
    var l, m := TotalLoad(slots, n), TotalMax(slots, n);
    RatioBetween(l, m, lo);
    RatioBetween(l, m, hi);
    FloorMonotone(lo * 100.0, l / m * 100.0);
    FloorMonotone(l / m * 100.0, hi * 100.0);
    forall i | 0 <= i < n && Contributes(slots[i])
      ensures EffectiveLoad(slots[least]).eload <= EffectiveLoad(slots[i]).eload <= EffectiveLoad(slots[most]).eload
    {
      FloorMonotone(lo * 100.0, slots[i].load / slots[i].maxl * 100.0);
      FloorMonotone(slots[i].load / slots[i].maxl * 100.0, hi * 100.0);
    }
  }
}
