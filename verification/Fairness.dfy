/** What the algorithms promise over many selections. */
module Fairness {
  import opened Modular
  import opened Relay
  import opened UriHash
  import opened Registry
  import opened Selection

  // ----- round robin

  /** Successive states of the balancer at n selections by round robin, and after the last:
      the available members never change, and the branch that resets the member cursor for
      the sake of the clone is not taken. What else changes in between is left open. */
  predicate RoundRobinRun(bs: seq<Balancer>, list: seq<nat>) {
    && |bs| > 0 && list != []
    && forall j :: 0 <= j < |bs| - 1 ==>
         && RegistryOk(bs[j]) && bs[j].algorithm == RoundRobin && !ClobbersCursor(bs[j])
         && Choose(bs[j], NotHttp).Some? && Available(bs[j]).Some? && Available(bs[j]).value.members == list
         && bs[j + 1].nextMember == Choose(bs[j], NotHttp).value.k.nextMember
  }

  lemma {:induction false} PositionInIncreasing(list: seq<nat>, i: nat)
    requires forall j, k :: 0 <= j < k < |list| ==> list[j] < list[k]
    requires i < |list|
    ensures Position(list, list[i]) == i
  {
    assert list[Position(list, list[i])] == list[i];
  }

  lemma {:induction false} AvailableIncreases(b: Balancer)
    requires RegistryOk(b) && Available(b).Some?
    ensures forall j, k :: 0 <= j < k < |Available(b).value.members| ==>
      Available(b).value.members[j] < Available(b).value.members[k]
  {
    ScanIncreases(b.members.slots, b.members.count, b.strict, false);
    ScanIncreases(b.members.slots, b.members.count, b.strict, true);
    hide Scan;
  }

  /** One selection: the next in the list after the cursor. */
  lemma {:induction false} RoundRobinPick(b: Balancer)
    requires RegistryOk(b) && b.algorithm == RoundRobin && Choose(b, NotHttp).Some?
    ensures var list := Available(b).value.members;
      var i := Position(list, Available(b).value.nextMember);
      i < |list| && Choose(b, NotHttp).value.k.nextMember == list[Around(i, |list|)]
    ensures forall j, k :: 0 <= j < k < |Available(b).value.members| ==>
      Available(b).value.members[j] < Available(b).value.members[k]
  {
    AvailableIsGrounded(b);
    AvailableIncreases(b);
    hide Available, RegistryOk;
    var k := Available(b).value;
    var i := Position(k.members, k.nextMember);
    ModOnce(i + 1, |k.members|);
    assert k.members[Around(i, |k.members|)] in k.members;
  }

  /** A cursor that is in the list needs no repair. */
  lemma {:induction false} ListedCursorStays(b: Balancer)
    requires RegistryOk(b) && Available(b).Some? && !ClobbersCursor(b)
    requires b.nextMember in Available(b).value.members
    ensures Available(b).value.nextMember == b.nextMember
  {
    AvailableSound(b);
  }

  /** The position of the j-th pick: one place further each time, around the list. */
  lemma {:induction false} RoundRobinPicks(bs: seq<Balancer>, list: seq<nat>, j: nat)
    requires RoundRobinRun(bs, list) && j < |bs| - 1
    ensures var start := Position(list, Available(bs[0]).value.nextMember);
      && start < |list|
      && bs[j + 1].nextMember == list[(start + 1 + j) % |list|]
      && forall i, k :: 0 <= i < k < |list| ==> list[i] < list[k]
  {
    hide Choose, Available, ClobbersCursor, RegistryOk, Position;
    assert Choose(bs[0], NotHttp).Some? && bs[1].nextMember == Choose(bs[0], NotHttp).value.k.nextMember;
    RoundRobinPick(bs[0]);
    var start := Position(list, Available(bs[0]).value.nextMember);
    var n := |list|;
    if j == 0 {
      ModOnce(start + 1, n);
    } else {
      RoundRobinPicks(bs, list, j - 1);
      var p := (start + 1 + (j - 1)) % n;
      assert bs[j].nextMember == list[p];
      assert list[p] in list;
      ListedCursorStays(bs[j]);
      RoundRobinPick(bs[j]);
      PositionInIncreasing(list, p);
      AdvanceOne(start + j, n);
    }
  }

  /** The picks of a run, oldest first. */
  function Picks(bs: seq<Balancer>): (picks: seq<int>)
    requires |bs| > 0
    ensures |picks| == |bs| - 1 && forall j :: 0 <= j < |picks| ==> picks[j] == bs[j + 1].nextMember
  {
    seq(|bs| - 1, j requires 0 <= j < |bs| - 1 => bs[j + 1].nextMember)
  }

  /** How often position d turns up in n steps around k positions, starting at 0. */
  function Hits(n: nat, d: nat, k: nat): nat
    requires d < k
  {
    n / k + (if n % k > d then 1 else 0)
  }

  lemma {:induction false} HitsStep(n: nat, d: nat, k: nat)
    requires d < k
    ensures Hits(n + 1, d, k) == Hits(n, d, k) + (if n % k == d then 1 else 0)
  {
    var q, r := n / k, n % k;
    assert n == q * k + r;
    if r + 1 < k {
      DivMod(n + 1, q, r + 1, k);
    } else {
      assert n + 1 == (q + 1) * k + 0;
      DivMod(n + 1, q + 1, 0, k);
    }
  }

  /** The distance from position s up to position x, around k positions. */
  function Distance(s: nat, x: nat, k: nat): (d: nat)
    requires s < k && x < k
    ensures d < k
  {
    if x >= s then x - s else x + k - s
  }

  lemma {:induction false} AroundHits(s: nat, x: nat, k: nat, j: nat)
    requires s < k && x < k
    ensures (s + j) % k == x <==> j % k == Distance(s, x, k)
  {
    var q, r := j / k, j % k;
    assert s + j == (s + r) + q * k;
    ModShift(s + r, q, k);
    ModOnce(s + r, k);
  }

  lemma {:induction false} CountAround(picks: seq<int>, list: seq<nat>, s: nat, x: nat)
    requires s < |list| && x < |list|
    requires forall i, k :: 0 <= i < k < |list| ==> list[i] < list[k]
    requires forall j :: 0 <= j < |picks| ==> picks[j] == list[(s + j) % |list|]
    ensures Count(picks, list[x]) == Hits(|picks|, Distance(s, x, |list|), |list|)
  {
    if picks != [] {
      var n := |picks| - 1;
      CountAround(picks[..n], list, s, x);
      HitsStep(n, Distance(s, x, |list|), |list|);
      AroundHits(s, x, |list|, n);
      var p := (s + n) % |list|;
      assert picks[n] == list[x] <==> p == x;
    } else {
      DivMod(0, 0, 0, |list|);
    }
  }

  /** Round-robin fairness: in n selections over k available members, each of them is chosen
      n/k times or once more, whatever the cursor was; so any k consecutive selections
      choose each exactly once, and pick counts never differ by more than one. */
  lemma {:induction false} RoundRobinFair(bs: seq<Balancer>, list: seq<nat>, x: nat)
    requires RoundRobinRun(bs, list) && x in list
    ensures var n := |bs| - 1;
      && n / |list| <= Count(Picks(bs), x) <= n / |list| + 1
      && (n % |list| == 0 ==> Count(Picks(bs), x) == n / |list|)
  {
    hide Choose, Available, ClobbersCursor, RegistryOk, Position, Count;
    var n := |bs| - 1;
    var i := Position(list, x);
    if n == 0 {
      DivMod(0, 0, 0, |list|);
      CountNone(Picks(bs), x);
    } else {
      RoundRobinPicks(bs, list, 0);
      var start := Position(list, Available(bs[0]).value.nextMember);
      var s := Around(start, |list|);
      ModOnce(start + 1, |list|);
      forall j | 0 <= j < n ensures Picks(bs)[j] == list[(s + j) % |list|] {
        RoundRobinPicks(bs, list, j);
        assert start + 1 + j == (s + j) + (if s == start + 1 then 0 else 1) * |list|;
        ModShift(s + j, if s == start + 1 then 0 else 1, |list|);
      }
      CountAround(Picks(bs), list, s, i);
    }
  }

  /** When the branch for the clone is taken, round robin does not go round: whatever the
      cursor was, the second member of the list is picked. */
  lemma {:induction false} ClobberedRoundRobinSticks(b: Balancer)
    requires RegistryOk(b) && b.algorithm == RoundRobin && ClobbersCursor(b) && Choose(b, NotHttp).Some?
    ensures var list := Available(b).value.members;
      list != [] && Choose(b, NotHttp).value.k.nextMember == list[Around(0, |list|)]
  {
    RoundRobinPick(b);
    var list := Available(b).value.members;
    PositionInIncreasing(list, 0);
  }

  /** Exactly when round robin goes on to the next member: when the branch is not taken, or
      could change nothing. */
  lemma {:induction false} RoundRobinAdvancesIff(b: Balancer)
    requires RegistryOk(b) && b.algorithm == RoundRobin && Choose(b, NotHttp).Some?
    ensures Available(b).Some? && RepairedMember(b) in Available(b).value.members
    ensures var list := Available(b).value.members;
      Choose(b, NotHttp).value.k.nextMember == list[Around(Position(list, RepairedMember(b)), |list|)] <==>
        !ClobbersCursor(b) || |list| == 1 || RepairedMember(b) == list[0]
  {
    RepairedMemberIsListed(b);
    RoundRobinPick(b);
    var list := Available(b).value.members;
    var i := Position(list, RepairedMember(b));
    PositionInIncreasing(list, 0);
    if ClobbersCursor(b) { ClobberedRoundRobinSticks(b); }
    assert list == ScanWithFallback(b.members, b.strict);
    assert !ClobbersCursor(b) ==> Available(b).value.nextMember == RepairedMember(b);
    hide Choose, Available, RegistryOk, Position, RepairedMember, ScanWithFallback, ClobbersCursor;
    AroundIsInjective(i, 0, |list|);
  }

  // ----- least connections

  /** LC picks a member with the fewest connections of those available, and the round-robin
      successor of the cursor when that is one of them. */
  lemma {:induction false} LeastConnectionsPick(b: Balancer)
    requires RegistryOk(b) && b.algorithm == LeastConnections && Available(b).Some?
    ensures Grounded(b, Available(b).value)
    ensures var a := Available(b).value;
      var m := Choose(b, NotHttp).value.k.nextMember;
      var next := SetRr(b, a).nextMember;
      && m in a.members && next in a.members && m < MAXSERVERS && next < MAXSERVERS
      && (forall i: nat :: i in a.members ==> b.members.slots[m].c <= b.members.slots[i].c)
      && (b.members.slots[m].c < b.members.slots[next].c || m == next)
  {
    AvailableIsGrounded(b);
    var a := Available(b).value;
    RrStaysGrounded(b, a);
    var r := SetRr(b, a);
    LeastIsMinimum(b.members.slots, r.members, r.nextMember, Connections);
    hide Available, SetRr, RegistryOk;
  }

  /** LL picks a member with the smallest weighted load of those available, and keeps the
      repaired cursor when that is one of them. */
  lemma {:induction false} LeastLoadPick(b: Balancer)
    requires RegistryOk(b) && b.algorithm == LeastLoad && Choose(b, NotHttp).Some?
    ensures var a := Available(b).value;
      var m := Choose(b, NotHttp).value.k.nextMember;
      var key := WeightedLoad(b.weight);
      && m in a.members && a.nextMember in a.members && m < MAXSERVERS && a.nextMember < MAXSERVERS
      && (forall i: nat :: i in a.members ==> i < MAXSERVERS && key(b.members.slots[m]) <= key(b.members.slots[i]))
      && (key(b.members.slots[m]) < key(b.members.slots[a.nextMember]) || m == a.nextMember)
  {
    AvailableIsGrounded(b);
    var a := Available(b).value;
    LeastIsMinimum(b.members.slots, a.members, a.nextMember, WeightedLoad(b.weight));
    hide Available, RegistryOk;
  }

  /** Connection counts of the listed members are at most one apart. */
  predicate Even(v: Servers, list: seq<nat>) {
    && (forall i :: i in list ==> i < |v.slots|)
    && forall i, j :: i in list && j in list ==> v.slots[i].c <= v.slots[j].c + 1
  }

  lemma {:induction false} EvenStep(v: Servers, w: Servers, list: seq<nat>, m: nat)
    requires Even(v, list) && m in list && |w.slots| == |v.slots|
    requires forall i :: i in list ==> v.slots[m].c <= v.slots[i].c
    requires forall i :: i in list ==> w.slots[i].c == v.slots[i].c + (if i == m then 1 else 0)
    ensures Even(w, list)
  {
  }

  // ----- static

  /** STATIC needs no memory: two balancers that offer the same members send a request for
      the same path to the same one, whatever their histories, cursors and connections. */
  lemma {:induction false} StaticAgrees(b: Balancer, b': Balancer, path: seq<Byte>)
    requires RegistryOk(b) && RegistryOk(b') && b.algorithm == b'.algorithm == Static
    requires Choose(b, Resource(path)).Some? && Choose(b', Resource(path)).Some?
    requires Available(b).value.members == Available(b').value.members
    ensures Choose(b, Resource(path)).value.k.nextMember == Choose(b', Resource(path)).value.k.nextMember
    ensures Choose(b, Resource(path)).value.b.table == b.table
  {
    hide Available, Bucket;
  }

  /** STATIC separates paths by their buckets: two paths go to the same member exactly when
      their buckets agree modulo the number of available members. */
  lemma {:induction false} StaticSeparates(b: Balancer, path: seq<Byte>, path': seq<Byte>)
    requires RegistryOk(b) && b.algorithm == Static && Available(b).Some?
    ensures var n := |Available(b).value.members|;
      n > 0 && (Choose(b, Resource(path)).value.k.nextMember == Choose(b, Resource(path')).value.k.nextMember <==>
                Bucket(path) % n == Bucket(path') % n)
  {
    AvailableIsGrounded(b);
    AvailableIncreases(b);
    hide Available, Bucket;
  }
}
