/** What the replay is run to find out: whether the loop works on one group at a time, and what it
    costs in context switches. */
module ReplayConverges {
  import opened Text
  import opened Sorting
  import opened ClaimReplay

  // ----- How one claim moves the groups

  lemma {:induction false} RemainingAfter(tasks: seq<Task>, group: Grouping, claimed: set<string>, t: Task, front: Front)
    requires UniqueIds(tasks) && t.id in group
    ensures Remaining(tasks, group, claimed + {t.id}, front) == Remaining(tasks, group, claimed, front) -
      (if t in tasks && group[t.id] == front && Remains(t, claimed) then 1 else 0) - Twins(tasks, group, claimed, t, front)
  {
    if tasks != [] {
      var init, last := tasks[..|tasks| - 1], tasks[|tasks| - 1];
      RemainingAfter(init, group, claimed, t, front);
      assert tasks == init + [last];
      if last.id == t.id {
        assert forall u :: u in init ==> u.id != t.id;
        NoTwins(init, group, claimed, t, front);
      }
    }
  }

  /** Tasks other than `t` under `t`'s id; none when ids are unique. */
  function Twins(tasks: seq<Task>, group: Grouping, claimed: set<string>, t: Task, front: Front): nat
    requires t.id in group
  {
    if tasks == [] then 0
    else
      var u := tasks[|tasks| - 1];
      Twins(tasks[..|tasks| - 1], group, claimed, t, front) +
      if u != t && u.id == t.id && group[t.id] == front && Remains(u, claimed) then 1 else 0
  }

  lemma {:induction false} NoTwins(tasks: seq<Task>, group: Grouping, claimed: set<string>, t: Task, front: Front)
    requires t.id in group && forall u :: u in tasks && u != t ==> u.id != t.id
    ensures Twins(tasks, group, claimed, t, front) == 0
  {
    if tasks != [] {
      NoTwins(tasks[..|tasks| - 1], group, claimed, t, front);
    }
  }

  lemma ClaimMovesGroups(tasks: seq<Task>, group: Grouping, claimed: set<string>, t: Task, front: Front)
    requires UniqueIds(tasks) && t.id in group && Claimable(tasks, claimed, t)
    ensures Started(tasks, group, claimed + {t.id}, front) <==>
      Started(tasks, group, claimed, front) || front == group[t.id]
    ensures Remaining(tasks, group, claimed + {t.id}, front) ==
      Remaining(tasks, group, claimed, front) - if front == group[t.id] then 1 else 0
  {
    RemainingAfter(tasks, group, claimed, t, front);
    NoTwins(tasks, group, claimed, t, front);
  }

  // ----- One step: a group with work left in the phase is not left

  /** If the claim of `t` is followed by the claim of `n` while `u`, in `t`'s group and phase, could be
      claimed, then `n` is in that group and phase. */
  lemma StaysInGroup(tasks: seq<Task>, group: Grouping, claimed: set<string>, t: Task, n: Task, u: Task)
    requires UniqueIds(tasks) && Grouped(tasks, group)
    requires BestClaim(tasks, group, claimed, t, true)
    requires BestClaim(tasks, group, claimed + {t.id}, n, true)
    requires Claimable(tasks, claimed + {t.id}, u)
    requires group[u.id] == group[t.id] && IsCritical(u) == IsCritical(t)
    ensures group[n.id] == group[t.id] && IsCritical(n) == IsCritical(t)
  {
    var after := claimed + {t.id};
    ClaimMovesGroups(tasks, group, claimed, t, group[t.id]);
    ClaimMovesGroups(tasks, group, claimed, t, group[n.id]);
    assert Claimable(tasks, claimed, n) && n != t;
    assert KeyLess(ProposedKey(tasks, group, claimed, t), ProposedKey(tasks, group, claimed, n));
    assert n == u || KeyLess(ProposedKey(tasks, group, after, n), ProposedKey(tasks, group, after, u));
  }

  // ----- Whole runs

  lemma LaterStillClaimable(tasks: seq<Task>, group: Grouping, order: seq<Task>, proposed: bool, i: nat, j: nat)
    requires Grouped(tasks, group) && IsReplay(tasks, group, order, proposed)
    requires i <= j < |order|
    ensures Claimable(tasks, Ids(order[..i]), order[j])
  {
    assert Claimable(tasks, Ids(order[..j]), order[j]);
    forall id | id in Ids(order[..i])
      ensures id in Ids(order[..j])
    {
      var t :| t in order[..i] && t.id == id;
      assert t in order[..j];
    }
  }

  /** Critical tasks are all claimed before any other. */
  lemma CriticalFirst(tasks: seq<Task>, group: Grouping, order: seq<Task>, proposed: bool, i: nat, j: nat)
    requires Grouped(tasks, group) && IsReplay(tasks, group, order, proposed)
    requires i < j < |order| && IsCritical(order[j])
    ensures IsCritical(order[i])
  {
    LaterStillClaimable(tasks, group, order, proposed, i, j);
    assert BestClaim(tasks, group, Ids(order[..i]), order[i], proposed);
  }

  /** Same group, same phase. */
  predicate SameRun(group: Grouping, a: Task, b: Task) {
    a.id in group && b.id in group && group[a.id] == group[b.id] && IsCritical(a) == IsCritical(b)
  }

  lemma NextStays(tasks: seq<Task>, group: Grouping, order: seq<Task>, j: nat, k: nat)
    requires UniqueIds(tasks) && Grouped(tasks, group) && IsReplay(tasks, group, order, true)
    requires j + 1 < k < |order| && SameRun(group, order[j], order[k])
    ensures SameRun(group, order[j], order[j + 1])
  {
    LaterStillClaimable(tasks, group, order, true, j + 1, k);
    assert order[j + 1] in order;
    assert order[..j + 1] == order[..j] + [order[j]];
    assert Ids(order[..j + 1]) == Ids(order[..j]) + {order[j].id};
    assert BestClaim(tasks, group, Ids(order[..j]), order[j], true);
    assert BestClaim(tasks, group, Ids(order[..j + 1]), order[j + 1], true);
    StaysInGroup(tasks, group, Ids(order[..j]), order[j], order[j + 1], order[k]);
  }

  lemma {:induction false} OneGroupBetween(tasks: seq<Task>, group: Grouping, order: seq<Task>, i: nat, j: nat, k: nat)
    requires UniqueIds(tasks) && Grouped(tasks, group) && IsReplay(tasks, group, order, true)
    requires i < j < k < |order| && SameRun(group, order[i], order[k])
    ensures SameRun(group, order[i], order[j])
    decreases j - i
  {
    if i + 1 < j {
      OneGroupBetween(tasks, group, order, i, j - 1, k);
    }
    NextStays(tasks, group, order, j - 1, k);
  }

  /** Between two claims of one group in one phase, every claim is of that group. */
  ghost predicate OneAtATime(group: Grouping, order: seq<Task>) {
    forall i, j, k :: 0 <= i < j < k < |order| && SameRun(group, order[i], order[k]) ==> SameRun(group, order[i], order[j])
  }

  /** The loop converges on one group at a time. */
  lemma OneGroupAtATime(tasks: seq<Task>, group: Grouping, order: seq<Task>)
    requires UniqueIds(tasks) && Grouped(tasks, group) && IsReplay(tasks, group, order, true)
    ensures OneAtATime(group, order)
  {
    forall i, j, k | 0 <= i < j < k < |order| && SameRun(group, order[i], order[k])
      ensures SameRun(group, order[i], order[j])
    {
      OneGroupBetween(tasks, group, order, i, j, k);
    }
  }

  /** A group is only left, within a phase, when none of its tasks in that phase is still ready. */
  lemma LeftOnlyWhenDrained(tasks: seq<Task>, group: Grouping, order: seq<Task>, i: nat, u: Task)
    requires UniqueIds(tasks) && Grouped(tasks, group) && IsReplay(tasks, group, order, true)
    requires i + 1 < |order| && order[i].id in group && order[i + 1].id in group
    requires group[order[i + 1].id] != group[order[i].id] && IsCritical(order[i + 1]) == IsCritical(order[i])
    requires u.id in group && group[u.id] == group[order[i].id] && IsCritical(u) == IsCritical(order[i])
    ensures !Claimable(tasks, Ids(order[..i + 1]), u)
  {
    assert order[..i + 1] == order[..i] + [order[i]];
    assert Ids(order[..i + 1]) == Ids(order[..i]) + {order[i].id};
    assert BestClaim(tasks, group, Ids(order[..i]), order[i], true);
    assert BestClaim(tasks, group, Ids(order[..i + 1]), order[i + 1], true);
    if Claimable(tasks, Ids(order[..i + 1]), u) {
      StaysInGroup(tasks, group, Ids(order[..i]), order[i], order[i + 1], u);
    }
  }

  // ----- Context switches

  /** Times consecutive picks change group. */
  function Switches(fronts: seq<Front>): nat {
    if |fronts| < 2 then 0
    else (if fronts[0] != fronts[1] then 1 else 0) + Switches(fronts[1..])
  }

  method CountSwitches(fronts: seq<Front>) returns (n: nat)
    ensures n == Switches(fronts)
  {
    n := 0;
    if fronts == [] {
      return;
    }
    for i := 1 to |fronts|
      invariant n + Switches(fronts[i - 1..]) == Switches(fronts)
    {
      assert fronts[i - 1..][1..] == fronts[i..];
      if fronts[i - 1] != fronts[i] {
        n := n + 1;
      }
    }
  }

  function Distinct(fronts: seq<Front>): set<Front> {
    set f | f in fronts
  }

  /** Equal entries stand next to each other. */
  ghost predicate Blocks(fronts: seq<Front>) {
    forall i, j, k :: 0 <= i < j < k < |fronts| && fronts[i] == fronts[k] ==> fronts[j] == fronts[i]
  }

  lemma DistinctCons(fronts: seq<Front>)
    requires |fronts| > 0
    ensures Distinct(fronts) == {fronts[0]} + Distinct(fronts[1..])
  {
    assert fronts == [fronts[0]] + fronts[1..];
  }

  /** No order of some picks can switch less often than it has groups, less one. */
  lemma {:induction false} SwitchesAtLeast(fronts: seq<Front>)
    requires |fronts| > 0
    ensures Switches(fronts) >= |Distinct(fronts)| - 1
  {
    DistinctCons(fronts);
    if |fronts| == 1 {
      assert Distinct(fronts) == {fronts[0]};
    } else {
      SwitchesAtLeast(fronts[1..]);
      if fronts[0] == fronts[1] {
        assert fronts[1] in fronts[1..];
        assert Distinct(fronts) == Distinct(fronts[1..]);
      }
    }
  }

  /** Picks in blocks switch exactly that often; and only picks in blocks do. */
  lemma {:induction false} BlocksSwitchLeast(fronts: seq<Front>)
    requires |fronts| > 0
    ensures Blocks(fronts) <==> Switches(fronts) == |Distinct(fronts)| - 1
  {
    hide Blocks, Distinct;
    DistinctCons(fronts);
    if |fronts| == 1 {
      OneBlock(fronts);
    } else {
      BlocksSwitchLeast(fronts[1..]);
      SwitchesAtLeast(fronts[1..]);
      BlocksCons(fronts);
      assert fronts[1..][0] == fronts[1];
      DistinctCount(fronts);
    }
  }

  lemma OneBlock(fronts: seq<Front>)
    requires |fronts| == 1
    ensures Blocks(fronts) && Distinct(fronts) == {fronts[0]}
  {
  }

  lemma DistinctCount(fronts: seq<Front>)
    requires |fronts| > 1
    ensures |Distinct(fronts)| == |Distinct(fronts[1..])| + if fronts[0] in fronts[1..] then 0 else 1
  {
    DistinctCons(fronts);
    if fronts[0] in fronts[1..] {
      assert Distinct(fronts) == Distinct(fronts[1..]);
    }
  }

  /** A front put before blocks keeps them blocks when it repeats the first or is new. */
  lemma BlocksCons(fronts: seq<Front>)
    requires |fronts| > 1
    ensures Blocks(fronts) <==> Blocks(fronts[1..]) && (fronts[0] == fronts[1] || fronts[0] !in fronts[1..])
  {
    var rest := fronts[1..];
    if Blocks(fronts) {
      if fronts[0] in rest {
        var k :| 0 <= k < |rest| && rest[k] == fronts[0];
        assert fronts[0] == fronts[k + 1] && (k > 0 ==> 1 < k + 1);
      }
    }
  }

  function FrontsOf(group: Grouping, order: seq<Task>): seq<Front>
    requires forall t :: t in order ==> t.id in group
  {
    seq(|order|, i requires 0 <= i < |order| => assert order[i] in order; group[order[i].id])
  }

  /** Any stretch of such a run inside one phase is laid out in blocks. */
  lemma PhaseInBlocks(group: Grouping, order: seq<Task>, lo: nat, hi: nat)
    requires OneAtATime(group, order) && forall t :: t in order ==> t.id in group
    requires lo <= hi <= |order| && forall i, j :: lo <= i < j < hi ==> IsCritical(order[i]) == IsCritical(order[j])
    ensures Blocks(FrontsOf(group, order)[lo..hi])
  {
    var fronts := FrontsOf(group, order)[lo..hi];
    forall i, j, k | 0 <= i < j < k < |fronts| && fronts[i] == fronts[k]
      ensures fronts[j] == fronts[i]
    {
      assert order[lo + i] in order && order[lo + j] in order && order[lo + k] in order;
      assert SameRun(group, order[lo + i], order[lo + k]);
      assert SameRun(group, order[lo + i], order[lo + j]);
    }
  }

  /** With no critical task ready, the replay switches exactly once per further group, and no other
      order of the same picks switches less. */
  lemma FewestSwitches(tasks: seq<Task>, group: Grouping, order: seq<Task>, other: seq<Task>)
    requires UniqueIds(tasks) && Grouped(tasks, group) && IsReplay(tasks, group, order, true)
    requires forall t :: t in Ready(tasks) ==> !IsCritical(t)
    requires order != [] && multiset(other) == multiset(order)
    ensures forall t :: t in order || t in other ==> t.id in group
    ensures Switches(FrontsOf(group, order)) == |Distinct(FrontsOf(group, order))| - 1
    ensures Switches(FrontsOf(group, order)) <= Switches(FrontsOf(group, other))
  {
    ReadyMembers(tasks);
    SameMembers(order, other);
    var fronts, others := FrontsOf(group, order), FrontsOf(group, other);
    forall i | 0 <= i < |order|
      ensures !IsCritical(order[i])
    {
      assert order[i] in order;
    }
    OneGroupAtATime(tasks, group, order);
    PhaseInBlocks(group, order, 0, |order|);
    assert fronts[0..|order|] == fronts;
    BlocksSwitchLeast(fronts);
    SwitchesAtLeast(others);
    DistinctSame(group, order, other);
  }

  lemma DistinctSame(group: Grouping, a: seq<Task>, b: seq<Task>)
    requires forall t :: t in a <==> t in b
    requires forall t :: t in a ==> t.id in group
    ensures Distinct(FrontsOf(group, a)) == Distinct(FrontsOf(group, b))
  {
    DistinctWithin(group, a, b);
    DistinctWithin(group, b, a);
  }

  lemma DistinctWithin(group: Grouping, a: seq<Task>, b: seq<Task>)
    requires forall t :: t in a ==> t in b
    requires forall t :: t in b ==> t.id in group
    ensures Distinct(FrontsOf(group, a)) <= Distinct(FrontsOf(group, b))
  {
    forall f | f in FrontsOf(group, a)
      ensures f in FrontsOf(group, b)
    {
      var i :| 0 <= i < |a| && FrontsOf(group, a)[i] == f;
      assert a[i] in b;
      var j :| 0 <= j < |b| && b[j] == a[i];
      assert FrontsOf(group, b)[j] == f;
    }
  }

  lemma {:induction false} SwitchesSplit(a: seq<Front>, b: seq<Front>)
    ensures Switches(a + b) == Switches(a) + Switches(b) +
      if a != [] && b != [] && a[|a| - 1] != b[0] then 1 else 0
    decreases |a|
  {
    if a == [] {
      assert a + b == b;
    } else {
      SwitchesSplit(a[1..], b);
      assert (a + b)[1..] == a[1..] + b;
      if |a| == 1 {
        assert a[1..] + b == b;
      } else {
        assert (a + b)[1] == a[1];
      }
    }
  }

  lemma TurningPoint(tasks: seq<Task>, group: Grouping, order: seq<Task>, proposed: bool) returns (turn: nat)
    requires Grouped(tasks, group) && IsReplay(tasks, group, order, proposed)
    ensures turn <= |order| && forall i :: 0 <= i < |order| ==> (IsCritical(order[i]) <==> i < turn)
  {
    turn := 0;
    while turn < |order| && IsCritical(order[turn])
      invariant turn <= |order| && forall i :: 0 <= i < turn ==> IsCritical(order[i])
    {
      turn := turn + 1;
    }
    forall i | turn <= i < |order|
      ensures !IsCritical(order[i])
    {
      if IsCritical(order[i]) && i > turn {
        CriticalFirst(tasks, group, order, proposed, turn, i);
      }
    }
  }

  /** In general there are two phases, each in blocks: the replay switches once per further group of each
      phase, and once more where the phases meet if they meet in different groups. */
  lemma TwoPhaseSwitches(tasks: seq<Task>, group: Grouping, order: seq<Task>) returns (turn: nat)
    requires UniqueIds(tasks) && Grouped(tasks, group) && IsReplay(tasks, group, order, true)
    ensures forall t :: t in order ==> t.id in group
    ensures turn <= |order| && forall i :: 0 <= i < |order| ==> (IsCritical(order[i]) <==> i < turn)
    ensures Blocks(FrontsOf(group, order)[..turn]) && Blocks(FrontsOf(group, order)[turn..])
    ensures 0 < turn < |order| ==>
      var fronts := FrontsOf(group, order);
      Switches(fronts) == |Distinct(fronts[..turn])| - 1 + |Distinct(fronts[turn..])| - 1 +
        if fronts[turn - 1] != fronts[turn] then 1 else 0
  {
    turn := TurningPoint(tasks, group, order, true);
    OneGroupAtATime(tasks, group, order);
    PhaseInBlocks(group, order, 0, turn);
    PhaseInBlocks(group, order, turn, |order|);
    TwoBlocksSwitches(FrontsOf(group, order), turn);
  }

  lemma BlocksSwitch(fronts: seq<Front>)
    requires |fronts| > 0 && Blocks(fronts)
    ensures Switches(fronts) == |Distinct(fronts)| - 1
  {
    BlocksSwitchLeast(fronts);
  }

  lemma TwoBlocksSwitches(fronts: seq<Front>, turn: nat)
    requires turn <= |fronts| && Blocks(fronts[0..turn]) && Blocks(fronts[turn..|fronts|])
    ensures Blocks(fronts[..turn]) && Blocks(fronts[turn..])
    ensures 0 < turn < |fronts| ==>
      Switches(fronts) == |Distinct(fronts[..turn])| - 1 + |Distinct(fronts[turn..])| - 1 +
        if fronts[turn - 1] != fronts[turn] then 1 else 0
  {
    hide Blocks, Distinct, Switches;
    var a, b := fronts[..turn], fronts[turn..];
    assert fronts[0..turn] == a && fronts[turn..|fronts|] == b && a + b == fronts;
    if 0 < turn < |fronts| {
      BlocksSwitch(a);
      BlocksSwitch(b);
      SwitchesSplit(a, b);
    }
  }

  // ----- The static key

  function Ahead(a: Task, b: Task): bool {
    KeyLess(CurrentKey(a), CurrentKey(b))
  }

  lemma AheadOrders()
    ensures Transitive(Ahead) && Asymmetric(Ahead)
  {
    forall x, y, z | Ahead(x, y) && Ahead(y, z)
      ensures Ahead(x, z)
    {
      KeyLessOrders(CurrentKey(x), CurrentKey(y), CurrentKey(z));
    }
    forall x, y | Ahead(x, y)
      ensures !Ahead(y, x)
    {
      KeyLessOrders(CurrentKey(x), CurrentKey(y), CurrentKey(x));
    }
  }

  lemma ReplayPrefix(tasks: seq<Task>, group: Grouping, order: seq<Task>, proposed: bool, n: nat)
    requires Grouped(tasks, group) && IsReplay(tasks, group, order, proposed) && n <= |order|
    ensures IsReplay(tasks, group, order[..n], proposed)
  {
    var init := order[..n];
    forall i | 0 <= i < n
      ensures BestClaim(tasks, group, Ids(init[..i]), init[i], proposed)
    {
      assert init[..i] == order[..i];
      assert BestClaim(tasks, group, Ids(order[..i]), order[i], proposed);
    }
  }

  /** With the first `n` of the sorted ready list claimed, its next entry is the best claim. */
  lemma NextOfSorted(tasks: seq<Task>, group: Grouping, sorted: seq<Task>, n: nat, pick: Task)
    requires UniqueIds(tasks) && Grouped(tasks, group) && n <= |sorted| && Sorted(Ahead, sorted)
    requires forall t :: t in sorted <==> t in tasks && StageOf(t.state) == Queued
    requires BestClaim(tasks, group, Ids(sorted[..n]), pick, false)
    ensures n < |sorted| && sorted[n] == pick
  {
    assert forall i :: 0 <= i < n ==> sorted[i] in sorted[..n] && sorted[i].id in Ids(sorted[..n]);
    var k := PositionOf(sorted, pick);
    var u := sorted[n];
    assert u in sorted;
    if u.id in Ids(sorted[..n]) {
      var t :| t in sorted[..n] && t.id == u.id;
      var i := PositionOf(sorted[..n], t);
      assert sorted[i] == t && Ahead(t, u);
      KeyLessOrders(CurrentKey(t), CurrentKey(u), CurrentKey(t));
    }
    assert Claimable(tasks, Ids(sorted[..n]), u);
    if n < k {
      assert Ahead(u, pick);
      KeyLessOrders(CurrentKey(u), CurrentKey(pick), CurrentKey(u));
    }
  }

  /** Under the current key re-ranking changes nothing: the replay is a prefix of the sorted ready list. */
  lemma {:induction false} StaticReplayIsSortedPrefix(tasks: seq<Task>, group: Grouping, order: seq<Task>)
    requires UniqueIds(tasks) && Grouped(tasks, group) && IsReplay(tasks, group, order, false)
    ensures order <= Sort(Ahead, Ready(tasks))
    decreases |order|
  {
    var sorted := Sort(Ahead, Ready(tasks));
    if order != [] {
      var n := |order| - 1;
      ReplayPrefix(tasks, group, order, false, n);
      StaticReplayIsSortedPrefix(tasks, group, order[..n]);
      ReadySorted(tasks);
      assert order[..n] == sorted[..n];
      assert BestClaim(tasks, group, Ids(order[..n]), order[n], false);
      NextOfSorted(tasks, group, sorted, n, order[n]);
    }
  }

  lemma PositionOf(s: seq<Task>, t: Task) returns (k: nat)
    requires t in s
    ensures k < |s| && s[k] == t
  {
    k :| 0 <= k < |s| && s[k] == t;
  }

  lemma ReadySorted(tasks: seq<Task>)
    requires UniqueIds(tasks)
    ensures Sorted(Ahead, Sort(Ahead, Ready(tasks)))
    ensures multiset(Sort(Ahead, Ready(tasks))) == multiset(Ready(tasks))
    ensures forall t :: t in Sort(Ahead, Ready(tasks)) <==> t in tasks && StageOf(t.state) == Queued
  {
    ReadyMembers(tasks);
    var ready := Ready(tasks);
    AheadOrders();
    forall i, j | 0 <= i < j < |ready|
      ensures Ahead(ready[i], ready[j]) || Ahead(ready[j], ready[i])
    {
      KeyLessOrders(CurrentKey(ready[i]), CurrentKey(ready[j]), CurrentKey(ready[i]));
    }
    SortSorts(Ahead, ready);
    SortPermutes(Ahead, ready);
    SameMembers(Sort(Ahead, ready), ready);
  }

  // ----- The proposal against the current key

  lemma FullDrain(tasks: seq<Task>, group: Grouping, order: seq<Task>, proposed: bool)
    requires UniqueIds(tasks) && Grouped(tasks, group) && IsReplay(tasks, group, order, proposed)
    requires |order| == |Ready(tasks)|
    ensures multiset(order) == multiset(Ready(tasks))
  {
    ReadyMembers(tasks);
    SubMultiset(order, Ready(tasks));
    assert |multiset(Ready(tasks)) - multiset(order)| == 0;
    assert multiset(Ready(tasks)) - multiset(order) == multiset{};
    assert multiset(Ready(tasks)) == multiset(order) + (multiset(Ready(tasks)) - multiset(order));
  }

  lemma SubMultiset(a: seq<Task>, b: seq<Task>)
    requires UniqueIds(a) && forall t :: t in a ==> t in b
    ensures multiset(a) <= multiset(b)
  {
    forall t
      ensures multiset(a)[t] <= multiset(b)[t]
    {
      AtMostOnce(a, t);
      if t in multiset(a) {
        assert t in a;
        assert t in multiset(b);
      }
    }
  }

  lemma {:induction false} AtMostOnce(a: seq<Task>, t: Task)
    requires UniqueIds(a)
    ensures multiset(a)[t] <= 1
  {
    if a != [] {
      var init, last := a[..|a| - 1], a[|a| - 1];
      assert a == init + [last];
      AtMostOnce(init, t);
      if t == last {
        assert t !in init;
        assert multiset(init)[t] == 0;
      }
    }
  }

  /** Draining the whole ready list with no critical task in it, the proposed key never switches more
      often than the current one. */
  lemma ProposalSwitchesLess(tasks: seq<Task>, group: Grouping, proposed: seq<Task>, current: seq<Task>)
    requires UniqueIds(tasks) && Grouped(tasks, group)
    requires IsReplay(tasks, group, proposed, true) && IsReplay(tasks, group, current, false)
    requires |proposed| == |current| == |Ready(tasks)| > 0
    requires forall t :: t in Ready(tasks) ==> !IsCritical(t)
    ensures forall t :: t in proposed || t in current ==> t.id in group
    ensures Switches(FrontsOf(group, proposed)) <= Switches(FrontsOf(group, current))
  {
    FullDrain(tasks, group, proposed, true);
    FullDrain(tasks, group, current, false);
    FewestSwitches(tasks, group, proposed, current);
  }

  /** Draining any ready list, critical tasks or not, the proposed key switches at most once more than the
      current one: where the critical phase ends. */
  lemma ProposalSwitchesAtMostOnceMore(tasks: seq<Task>, group: Grouping, proposed: seq<Task>, current: seq<Task>)
    requires UniqueIds(tasks) && Grouped(tasks, group)
    requires IsReplay(tasks, group, proposed, true) && IsReplay(tasks, group, current, false)
    requires |proposed| == |current| == |Ready(tasks)|
    ensures forall t :: t in proposed || t in current ==> t.id in group
    ensures Switches(FrontsOf(group, proposed)) <= Switches(FrontsOf(group, current)) + 1
  {
    hide Switches, Blocks, IsReplay, Grouped, OneAtATime, UniqueIds;
    FullDrain(tasks, group, proposed, true);
    FullDrain(tasks, group, current, false);
    SameMembers(proposed, current);
    InGroups(tasks, group, proposed);
    var turn := TurningPoint(tasks, group, proposed, true);
    var turn' := TurningPoint(tasks, group, current, false);
    OneGroupAtATime(tasks, group, proposed);
    PhaseInBlocks(group, proposed, 0, turn);
    PhaseInBlocks(group, proposed, turn, |proposed|);
    Phases(proposed, current, turn, turn');
    PhaseLeast(group, proposed, current, 0, turn, 0, turn');
    PhaseLeast(group, proposed, current, turn, |proposed|, turn', |current|);
    var p, c := FrontsOf(group, proposed), FrontsOf(group, current);
    assert p == p[0..turn] + p[turn..|p|] && c == c[0..turn'] + c[turn'..|c|];
    SwitchesSplit(p[0..turn], p[turn..|p|]);
    SwitchesSplit(c[0..turn'], c[turn'..|c|]);
  }

  lemma InGroups(tasks: seq<Task>, group: Grouping, order: seq<Task>)
    requires Grouped(tasks, group) && multiset(order) == multiset(Ready(tasks))
    ensures forall t :: t in order ==> t.id in group
  {
    ReadyMembers(tasks);
    SameMembers(order, Ready(tasks));
  }

  /** Two orders of the same tasks, critical ones first, have the same tasks in each phase. */
  lemma Phases(a: seq<Task>, b: seq<Task>, m: nat, n: nat)
    requires m <= |a| && n <= |b| && forall t :: t in a <==> t in b
    requires forall i :: 0 <= i < |a| ==> (IsCritical(a[i]) <==> i < m)
    requires forall i :: 0 <= i < |b| ==> (IsCritical(b[i]) <==> i < n)
    ensures forall t :: t in a[0..m] <==> t in b[0..n]
    ensures forall t :: t in a[m..|a|] <==> t in b[n..|b|]
  {
    PhaseMembers(a, m);
    PhaseMembers(b, n);
  }

  lemma PhaseMembers(a: seq<Task>, m: nat)
    requires m <= |a| && forall i :: 0 <= i < |a| ==> (IsCritical(a[i]) <==> i < m)
    ensures forall t :: t in a[0..m] <==> t in a && IsCritical(t)
    ensures forall t :: t in a[m..|a|] <==> t in a && !IsCritical(t)
  {
    assert a == a[0..m] + a[m..|a|];
    forall t | t in a[0..m]
      ensures IsCritical(t)
    {
      var i :| 0 <= i < m && a[0..m][i] == t;
      assert a[i] == t;
    }
    forall t | t in a[m..|a|]
      ensures !IsCritical(t)
    {
      var i :| 0 <= i < |a| - m && a[m..|a|][i] == t;
      assert a[m + i] == t;
    }
  }

  /** A phase in blocks switches no more often than any order of its tasks. */
  lemma PhaseLeast(group: Grouping, a: seq<Task>, b: seq<Task>, lo: nat, hi: nat, lo': nat, hi': nat)
    requires lo <= hi <= |a| && lo' <= hi' <= |b|
    requires forall t :: t in a || t in b ==> t.id in group
    requires forall t :: t in a[lo..hi] <==> t in b[lo'..hi']
    requires Blocks(FrontsOf(group, a)[lo..hi])
    ensures Switches(FrontsOf(group, a)[lo..hi]) <= Switches(FrontsOf(group, b)[lo'..hi'])
  {
    var p, c := FrontsOf(group, a)[lo..hi], FrontsOf(group, b)[lo'..hi'];
    assert p == FrontsOf(group, a[lo..hi]) && c == FrontsOf(group, b[lo'..hi']);
    DistinctSame(group, a[lo..hi], b[lo'..hi']);
    if p != [] {
      assert a[lo..hi][0] in b[lo'..hi'];
      BlocksSwitch(p);
      SwitchesAtLeast(c);
    }
  }
}
