/** The greedy claim replay: after every claim the ready tasks are ranked again, and a group the
    claim just opened outranks every untouched one. */
module ClaimReplay {
  import opened Text
  import opened Sorting

  // ----- Tasks, plans and groups

  datatype Task = Task(id: string, state: string, priority: string, createdAt: string, planDoc: Option<nat>)

  datatype Stage = Done | Abandoned | InFlight | Queued | Other

  function StageOf(state: string): Stage {
    if state in {"merged", "deployed_dev", "deployed_prod", "released"} then Done
    else if state == "abandoned" then Abandoned
    else if state in {"in_progress", "in_review"} then InFlight
    else if state in {"ready", "draft"} then Queued
    else Other
  }

  /** What a group is keyed on: a spec, a plan that covers no spec, or a task no plan minted. */
  datatype Front = SpecFront(doc: nat) | PlanFront(plan: nat) | TaskFront(task: string)

  /** Plan document ids with the documents their `covers` edges hit, one entry per edge. */
  type Plans = map<nat, seq<nat>>

  type Grouping = map<string, Front>

  ghost predicate UniqueIds(tasks: seq<Task>) {
    forall i, j :: 0 <= i < j < |tasks| ==> tasks[i].id != tasks[j].id
  }

  /** The document covered most often; among equals the smallest id. */
  ghost predicate MostCovered(covers: seq<nat>, doc: nat) {
    && doc in covers
    && forall d :: d in covers ==>
      multiset(covers)[d] < multiset(covers)[doc] || (multiset(covers)[d] == multiset(covers)[doc] && doc <= d)
  }

  method SpecOfPlan(covers: seq<nat>) returns (spec: Option<nat>)
    ensures spec.None? <==> covers == []
    ensures spec.Some? ==> MostCovered(covers, spec.value)
  {
    if covers == [] {
      return None;
    }
    var counts := multiset(covers);
    var best := covers[0];
    for i := 1 to |covers|
      invariant best in covers
      invariant forall j :: 0 <= j < i ==>
        counts[covers[j]] < counts[best] || (counts[covers[j]] == counts[best] && best <= covers[j])
    {
      var d := covers[i];
      if counts[d] > counts[best] || (counts[d] == counts[best] && d < best) {
        best := d;
      }
    }
    return Some(best);
  }

  /** The group a task belongs in. */
  ghost predicate InGroup(plans: Plans, t: Task, front: Front) {
    match t.planDoc
    case Some(plan) =>
      if plan in plans && plan != 0 then
        if plans[plan] == [] then front == PlanFront(plan)
        else front.SpecFront? && MostCovered(plans[plan], front.doc)
      else front == TaskFront(t.id)
    case None => front == TaskFront(t.id)
  }

  /** The task names a known plan that minted it. */
  predicate Linked(plans: Plans, t: Task) {
    t.planDoc.Some? && t.planDoc.value != 0 && t.planDoc.value in plans
  }

  method PlanTasks(plans: Plans, tasks: seq<Task>) returns (byPlan: map<nat, seq<Task>>)
    ensures forall plan, t: Task :: plan in byPlan && t in byPlan[plan] ==> t in tasks && Linked(plans, t) && t.planDoc == Some(plan)
    ensures forall t :: t in tasks && Linked(plans, t) ==> t.planDoc.value in byPlan && t in byPlan[t.planDoc.value]
  {
    byPlan := map[];
    for i := 0 to |tasks|
      invariant forall plan, t: Task :: plan in byPlan && t in byPlan[plan] ==>
        t in tasks && Linked(plans, t) && t.planDoc == Some(plan)
      invariant forall t :: t in tasks[..i] && Linked(plans, t) ==>
        t.planDoc.value in byPlan && t in byPlan[t.planDoc.value]
    {
      var t := tasks[i];
      assert tasks[..i + 1] == tasks[..i] + [t];
      if Linked(plans, t) {
        var plan := t.planDoc.value;
        byPlan := byPlan[plan := (if plan in byPlan then byPlan[plan] else []) + [t]];
      }
    }
    assert tasks[..|tasks|] == tasks;
  }

  ghost predicate GroupedRight(plans: Plans, tasks: seq<Task>, id: string, front: Front) {
    exists t :: t in tasks && t.id == id && InGroup(plans, t, front)
  }

  ghost predicate GroupingRight(plans: Plans, tasks: seq<Task>, group: Grouping) {
    forall id {:trigger id in group} :: id in group ==> GroupedRight(plans, tasks, id, group[id])
  }

  method GroupPlan(plans: Plans, tasks: seq<Task>, plan: nat, minted: seq<Task>, group: Grouping) returns (out: Grouping)
    requires plan in plans && GroupingRight(plans, tasks, group)
    requires forall t :: t in minted ==> t in tasks && Linked(plans, t) && t.planDoc == Some(plan)
    ensures GroupingRight(plans, tasks, out)
    ensures group.Keys <= out.Keys && forall t :: t in minted ==> t.id in out
  {
    out := group;
    var spec := SpecOfPlan(plans[plan]);
    var front := if spec.Some? then SpecFront(spec.value) else PlanFront(plan);
    for i := 0 to |minted|
      invariant GroupingRight(plans, tasks, out)
      invariant group.Keys <= out.Keys && forall j :: 0 <= j < i ==> minted[j].id in out
    {
      assert minted[i] in minted && InGroup(plans, minted[i], front);
      if minted[i].id !in out {
        out := out[minted[i].id := front];
      }
    }
  }

  /** The groups of the minted tasks, plan by plan in whatever order. */
  method GroupMinted(plans: Plans, tasks: seq<Task>, byPlan: map<nat, seq<Task>>) returns (group: Grouping)
    requires forall plan, t: Task :: plan in byPlan && t in byPlan[plan] ==> t in tasks && Linked(plans, t) && t.planDoc == Some(plan)
    ensures GroupingRight(plans, tasks, group)
    ensures forall plan, t: Task :: plan in byPlan && t in byPlan[plan] ==> t.id in group
  {
    hide GroupingRight, Linked;
    group := map[];
    assert GroupingRight(plans, tasks, group) by { NothingGrouped(plans, tasks); }
    var todo := set plan | plan in byPlan && byPlan[plan] != [];
    while todo != {}
      invariant forall plan :: plan in todo ==> plan in byPlan && byPlan[plan] != []
      invariant GroupingRight(plans, tasks, group)
      invariant forall plan, t: Task :: plan in byPlan && plan !in todo && t in byPlan[plan] ==> t.id in group
      decreases todo
    {
      var plan :| plan in todo;
      todo := todo - {plan};
      var minted: seq<Task> := byPlan[plan];
      assert minted[0] in minted && minted[0].planDoc == Some(plan);
      LinkedPlan(plans, minted[0]);
      group := GroupPlan(plans, tasks, plan, minted, group);
    }
  }

  lemma NothingGrouped(plans: Plans, tasks: seq<Task>)
    ensures GroupingRight(plans, tasks, map[])
  {
  }

  lemma LinkedPlan(plans: Plans, t: Task)
    requires Linked(plans, t)
    ensures t.planDoc.value in plans
  {
  }

  /** Minted tasks first, then a singleton for each task without a group: every task lands in its own group,
      and nothing else is grouped. */
  method GroupTasks(plans: Plans, tasks: seq<Task>) returns (group: Grouping)
    requires UniqueIds(tasks)
    ensures group.Keys == set t | t in tasks :: t.id
    ensures forall t :: t in tasks ==> InGroup(plans, t, group[t.id])
  {
    hide InGroup;
    var byPlan := PlanTasks(plans, tasks);
    group := GroupMinted(plans, tasks, byPlan);
    for i := 0 to |tasks|
      invariant GroupingRight(plans, tasks, group)
      invariant forall t :: t in tasks && Linked(plans, t) ==> t.id in group
      invariant forall j :: 0 <= j < i ==> tasks[j].id in group
    {
      if tasks[i].id !in group {
        LonelyGroup(plans, tasks[i]);
        group := group[tasks[i].id := TaskFront(tasks[i].id)];
      }
    }
    GroupsComplete(plans, tasks, group);
  }

  lemma LonelyGroup(plans: Plans, t: Task)
    requires !Linked(plans, t)
    ensures InGroup(plans, t, TaskFront(t.id))
  {
  }

  lemma GroupsComplete(plans: Plans, tasks: seq<Task>, group: Grouping)
    requires UniqueIds(tasks) && GroupingRight(plans, tasks, group)
    requires forall j :: 0 <= j < |tasks| ==> tasks[j].id in group
    ensures group.Keys == set t | t in tasks :: t.id
    ensures forall t :: t in tasks ==> InGroup(plans, t, group[t.id])
  {
    hide InGroup;
    forall t | t in tasks
      ensures t.id in group && InGroup(plans, t, group[t.id])
    {
      var j :| 0 <= j < |tasks| && tasks[j] == t;
      assert GroupedRight(plans, tasks, t.id, group[t.id]);
      var u :| u in tasks && u.id == t.id && InGroup(plans, u, group[t.id]);
      var k :| 0 <= k < |tasks| && tasks[k] == u;
    }
    forall id | id in group
      ensures exists t :: t in tasks && t.id == id
    {
      assert GroupedRight(plans, tasks, id, group[id]);
    }
  }

  // ----- What the claims so far did to the groups

  predicate Opens(t: Task, claimed: set<string>) {
    StageOf(t.state) == Done || StageOf(t.state) == InFlight || t.id in claimed
  }

  predicate Remains(t: Task, claimed: set<string>) {
    (StageOf(t.state) == Queued || StageOf(t.state) == InFlight) && t.id !in claimed
  }

  ghost predicate Grouped(tasks: seq<Task>, group: Grouping) {
    forall t :: t in tasks ==> t.id in group
  }

  predicate Started(tasks: seq<Task>, group: Grouping, claimed: set<string>, front: Front) {
    exists i :: 0 <= i < |tasks| && tasks[i].id in group && group[tasks[i].id] == front && Opens(tasks[i], claimed)
  }

  function Remaining(tasks: seq<Task>, group: Grouping, claimed: set<string>, front: Front): nat {
    if tasks == [] then 0
    else
      var t := tasks[|tasks| - 1];
      Remaining(tasks[..|tasks| - 1], group, claimed, front) +
      if t.id in group && group[t.id] == front && Remains(t, claimed) then 1 else 0
  }

  method GroupState(tasks: seq<Task>, group: Grouping, claimed: set<string>)
    returns (started: set<Front>, remaining: map<Front, nat>)
    requires Grouped(tasks, group)
    ensures forall front :: front in started <==> Started(tasks, group, claimed, front)
    ensures forall front ::
      Remaining(tasks, group, claimed, front) == if front in remaining then remaining[front] else 0
  {
    started, remaining := {}, map[];
    for i := 0 to |tasks|
      invariant forall front :: front in started <==>
        exists j :: 0 <= j < i && group[tasks[j].id] == front && Opens(tasks[j], claimed)
      invariant forall front ::
        Remaining(tasks[..i], group, claimed, front) == if front in remaining then remaining[front] else 0
    {
      assert tasks[..i + 1][..i] == tasks[..i];
      var t := tasks[i];
      var key := group[t.id];
      var stage := StageOf(t.state);
      if stage == Done || stage == InFlight || t.id in claimed {
        started := started + {key};
      }
      if (stage == Queued || stage == InFlight) && t.id !in claimed {
        remaining := remaining[key := (if key in remaining then remaining[key] else 0) + 1];
      }
    }
    assert tasks[..|tasks|] == tasks;
  }

  // ----- Ranking keys

  datatype Key = Key(notCritical: bool, concern: int, opening: nat, left: nat, priority: nat, createdAt: string, id: string)

  function PriorityOf(p: string): nat {
    if p == "critical" then 0 else if p == "high" then 1 else if p == "medium" then 2 else if p == "low" then 3 else 9
  }

  /** The order of Python tuples. */
  predicate KeyLess(a: Key, b: Key) {
    if a.notCritical != b.notCritical then !a.notCritical
    else if a.concern != b.concern then a.concern < b.concern
    else if a.opening != b.opening then a.opening < b.opening
    else if a.left != b.left then a.left < b.left
    else if a.priority != b.priority then a.priority < b.priority
    else if a.createdAt != b.createdAt then LexLess(a.createdAt, b.createdAt)
    else LexLess(a.id, b.id)
  }

  lemma KeyLessOrders(a: Key, b: Key, c: Key)
    ensures KeyLess(a, b) ==> !KeyLess(b, a)
    ensures KeyLess(a, b) && KeyLess(b, c) ==> KeyLess(a, c)
    ensures a.id != b.id ==> KeyLess(a, b) || KeyLess(b, a)
  {
    LexTotal(a.id, b.id);
    LexTotal(a.createdAt, b.createdAt);
    if LexLess(a.id, b.id) { LexAsymmetric(a.id, b.id); }
    if LexLess(a.createdAt, b.createdAt) { LexAsymmetric(a.createdAt, b.createdAt); }
    if LexLess(a.id, b.id) && LexLess(b.id, c.id) { LexTransitive(a.id, b.id, c.id); }
    if LexLess(a.createdAt, b.createdAt) && LexLess(b.createdAt, c.createdAt) {
      LexTransitive(a.createdAt, b.createdAt, c.createdAt);
    }
    if a.createdAt == c.createdAt && LexLess(a.createdAt, b.createdAt) { LexAsymmetric(a.createdAt, b.createdAt); }
    if b.createdAt == c.createdAt && LexLess(a.createdAt, b.createdAt) { LexAsymmetric(a.createdAt, b.createdAt); }
  }

  predicate IsCritical(t: Task) {
    t.priority == "critical"
  }

  function CurrentKey(t: Task): Key {
    Key(!IsCritical(t), 0, 0, 0, PriorityOf(t.priority), t.createdAt, t.id)
  }

  function ProposedKey(tasks: seq<Task>, group: Grouping, claimed: set<string>, t: Task): Key
    requires t.id in group
  {
    var front := Started(tasks, group, claimed, group[t.id]);
    Key(!IsCritical(t), 0, if front then 0 else 1,
        if front then Remaining(tasks, group, claimed, group[t.id]) else 0,
        PriorityOf(t.priority), t.createdAt, t.id)
  }

  function RankKey(tasks: seq<Task>, group: Grouping, claimed: set<string>, t: Task, proposed: bool): Key
    requires t.id in group
  {
    if proposed then ProposedKey(tasks, group, claimed, t) else CurrentKey(t)
  }

  // ----- The replay

  function Ready(tasks: seq<Task>): seq<Task> {
    if tasks == [] then []
    else Ready(tasks[..|tasks| - 1]) + if StageOf(tasks[|tasks| - 1].state) == Queued then [tasks[|tasks| - 1]] else []
  }

  predicate Claimable(tasks: seq<Task>, claimed: set<string>, t: Task) {
    t in tasks && StageOf(t.state) == Queued && t.id !in claimed
  }

  function Ids(order: seq<Task>): set<string> {
    set t | t in order :: t.id
  }

  /** `t` ranks strictly before every other task that could be claimed instead. */
  ghost predicate BestClaim(tasks: seq<Task>, group: Grouping, claimed: set<string>, t: Task, proposed: bool)
    requires Grouped(tasks, group)
  {
    && Claimable(tasks, claimed, t)
    && forall u :: Claimable(tasks, claimed, u) && u != t ==>
      KeyLess(RankKey(tasks, group, claimed, t, proposed), RankKey(tasks, group, claimed, u, proposed))
  }

  ghost predicate IsReplay(tasks: seq<Task>, group: Grouping, order: seq<Task>, proposed: bool)
    requires Grouped(tasks, group)
  {
    forall i :: 0 <= i < |order| ==> BestClaim(tasks, group, Ids(order[..i]), order[i], proposed)
  }

  // ----- Which claim is right, without the keys

  predicate Waiting(t: Task) {
    t.state == "ready" || t.state == "draft"
  }

  predicate Underway(t: Task) {
    t.state == "in_progress" || t.state == "in_review"
  }

  predicate Finished(t: Task) {
    t.state == "merged" || t.state == "deployed_dev" || t.state == "deployed_prod" || t.state == "released"
  }

  predicate MayClaim(tasks: seq<Task>, claimed: set<string>, t: Task) {
    t in tasks && Waiting(t) && t.id !in claimed
  }

  /** Some task of the group is finished, under way or claimed. */
  predicate IsOpen(tasks: seq<Task>, group: Grouping, claimed: set<string>, front: Front) {
    exists i :: 0 <= i < |tasks| && tasks[i].id in group && group[tasks[i].id] == front &&
      (Finished(tasks[i]) || Underway(tasks[i]) || tasks[i].id in claimed)
  }

  /** The group's tasks that wait or are under way and are not claimed. */
  function Unfinished(tasks: seq<Task>, group: Grouping, claimed: set<string>, front: Front): set<string> {
    set t | t in tasks && t.id in group && group[t.id] == front && (Waiting(t) || Underway(t)) && t.id !in claimed :: t.id
  }

  /** By priority, then by age, then by id. */
  predicate EarlierPick(a: Task, b: Task) {
    || MoreUrgent(a.priority, b.priority)
    || (!MoreUrgent(b.priority, a.priority) &&
        (LexLess(a.createdAt, b.createdAt) || (a.createdAt == b.createdAt && LexLess(a.id, b.id))))
  }

  /** Critical tasks come first. Within a phase open groups come first, the one with the fewest unfinished tasks
      before the others; untouched groups go by their tasks alone, whatever their size. */
  ghost predicate RightClaim(tasks: seq<Task>, group: Grouping, claimed: set<string>, t: Task)
    requires Grouped(tasks, group)
  {
    && MayClaim(tasks, claimed, t)
    && (forall u :: MayClaim(tasks, claimed, u) && u.priority == "critical" ==> t.priority == "critical")
    && (forall u :: MayClaim(tasks, claimed, u) && u != t && (u.priority == "critical" <==> t.priority == "critical") ==>
        RightOver(tasks, group, claimed, t, u))
  }

  predicate RightOver(tasks: seq<Task>, group: Grouping, claimed: set<string>, t: Task, u: Task)
    requires t.id in group && u.id in group
  {
    var mine, other := group[t.id], group[u.id];
    if IsOpen(tasks, group, claimed, other) then
      var m, n := |Unfinished(tasks, group, claimed, mine)|, |Unfinished(tasks, group, claimed, other)|;
      IsOpen(tasks, group, claimed, mine) && (m < n || (m == n && EarlierPick(t, u)))
    else
      IsOpen(tasks, group, claimed, mine) || EarlierPick(t, u)
  }

  /** Under the current key groups do not matter. */
  ghost predicate RightCurrentClaim(tasks: seq<Task>, claimed: set<string>, t: Task) {
    MayClaim(tasks, claimed, t) && forall u :: MayClaim(tasks, claimed, u) && u != t ==> EarlierPick(t, u)
  }

  predicate Counts(group: Grouping, claimed: set<string>, front: Front, t: Task) {
    t.id in group && group[t.id] == front && (Waiting(t) || Underway(t)) && t.id !in claimed
  }

  lemma {:induction false} RemainingCounts(tasks: seq<Task>, group: Grouping, claimed: set<string>, front: Front)
    requires UniqueIds(tasks)
    ensures Remaining(tasks, group, claimed, front) == |Unfinished(tasks, group, claimed, front)|
  {
    if tasks != [] {
      var init, last := tasks[..|tasks| - 1], tasks[|tasks| - 1];
      assert UniqueIds(init) && tasks == init + [last];
      hide Unfinished, UniqueIds, Counts, Remains;
      RemainingCounts(init, group, claimed, front);
      UnfinishedWith(init, last, group, claimed, front);
      RemainsCounts(group, claimed, front, last);
    } else {
      assert Unfinished(tasks, group, claimed, front) == {};
    }
  }

  lemma RemainsCounts(group: Grouping, claimed: set<string>, front: Front, t: Task)
    ensures Counts(group, claimed, front, t) <==> t.id in group && group[t.id] == front && Remains(t, claimed)
  {
  }

  lemma UnfinishedWith(init: seq<Task>, last: Task, group: Grouping, claimed: set<string>, front: Front)
    requires UniqueIds(init + [last])
    ensures var before := Unfinished(init, group, claimed, front);
      && last.id !in before
      && Unfinished(init + [last], group, claimed, front) == if Counts(group, claimed, front, last) then before + {last.id} else before
  {
    forall u | u in init
      ensures u.id != last.id
    {
      var i :| 0 <= i < |init| && init[i] == u;
      assert (init + [last])[i] == u && (init + [last])[|init|] == last;
    }
    hide Waiting, Underway, UniqueIds;
    assert forall u :: u in init + [last] <==> u in init || u == last;
  }

  lemma StartedIsOpen(tasks: seq<Task>, group: Grouping, claimed: set<string>, front: Front)
    ensures Started(tasks, group, claimed, front) <==> IsOpen(tasks, group, claimed, front)
  {
  }

  lemma KeyOrder(a: Task, b: Task)
    requires a.id != b.id
    ensures PriorityOf(a.priority) < PriorityOf(b.priority) <==> MoreUrgent(a.priority, b.priority)
    ensures PriorityOf(a.priority) == PriorityOf(b.priority) ==> !MoreUrgent(b.priority, a.priority)
    ensures KeyLess(CurrentKey(a), CurrentKey(b)) ==> EarlierPick(a, b)
  {
  }

  lemma ClaimableMay(tasks: seq<Task>, claimed: set<string>, t: Task)
    ensures Claimable(tasks, claimed, t) <==> MayClaim(tasks, claimed, t)
  {
  }

  lemma BestOver(tasks: seq<Task>, group: Grouping, claimed: set<string>, t: Task, u: Task)
    requires UniqueIds(tasks) && t.id in group && u.id in group && t.id != u.id
    requires KeyLess(ProposedKey(tasks, group, claimed, t), ProposedKey(tasks, group, claimed, u))
    ensures u.priority == "critical" ==> t.priority == "critical"
    ensures (u.priority == "critical" <==> t.priority == "critical") ==> RightOver(tasks, group, claimed, t, u)
  {
    RemainingCounts(tasks, group, claimed, group[t.id]);
    RemainingCounts(tasks, group, claimed, group[u.id]);
    StartedIsOpen(tasks, group, claimed, group[t.id]);
    StartedIsOpen(tasks, group, claimed, group[u.id]);
    KeyOrder(t, u);
    hide Started, IsOpen, Remaining, Unfinished, PriorityOf, MoreUrgent, UniqueIds;
  }

  /** The best claim by key is the right one. */
  lemma BestIsRight(tasks: seq<Task>, group: Grouping, claimed: set<string>, t: Task)
    requires UniqueIds(tasks) && Grouped(tasks, group) && BestClaim(tasks, group, claimed, t, true)
    ensures RightClaim(tasks, group, claimed, t)
  {
    hide KeyLess, ProposedKey, RightOver;
    ClaimableMay(tasks, claimed, t);
    forall u | MayClaim(tasks, claimed, u) && u != t
      ensures u.priority == "critical" ==> t.priority == "critical"
      ensures (u.priority == "critical" <==> t.priority == "critical") ==> RightOver(tasks, group, claimed, t, u)
    {
      ClaimableMay(tasks, claimed, u);
      Apart(tasks, t, u);
      BestOver(tasks, group, claimed, t, u);
    }
  }

  lemma BestIsRightNow(tasks: seq<Task>, group: Grouping, claimed: set<string>, t: Task)
    requires UniqueIds(tasks) && Grouped(tasks, group) && BestClaim(tasks, group, claimed, t, false)
    ensures RightCurrentClaim(tasks, claimed, t)
  {
    hide KeyLess, CurrentKey, EarlierPick;
    ClaimableMay(tasks, claimed, t);
    forall u | MayClaim(tasks, claimed, u) && u != t
      ensures EarlierPick(t, u)
    {
      ClaimableMay(tasks, claimed, u);
      Apart(tasks, t, u);
      KeyOrder(t, u);
    }
  }

  lemma Apart(tasks: seq<Task>, t: Task, u: Task)
    requires UniqueIds(tasks) && t in tasks && u in tasks && t != u
    ensures t.id != u.id
  {
    var i :| 0 <= i < |tasks| && tasks[i] == t;
    var j :| 0 <= j < |tasks| && tasks[j] == u;
  }

  /** Every claim of every replay is the right one. */
  lemma ReplayIsRight(tasks: seq<Task>, group: Grouping, order: seq<Task>, proposed: bool, i: nat)
    requires UniqueIds(tasks) && Grouped(tasks, group) && IsReplay(tasks, group, order, proposed) && i < |order|
    ensures var claimed := set t | t in order[..i] :: t.id;
      if proposed then RightClaim(tasks, group, claimed, order[i]) else RightCurrentClaim(tasks, claimed, order[i])
  {
    assert BestClaim(tasks, group, Ids(order[..i]), order[i], proposed);
    if proposed {
      BestIsRight(tasks, group, Ids(order[..i]), order[i]);
    } else {
      BestIsRightNow(tasks, group, Ids(order[..i]), order[i]);
    }
  }

  lemma {:induction false} ReadyMembers(tasks: seq<Task>)
    ensures forall t :: t in Ready(tasks) <==> t in tasks && StageOf(t.state) == Queued
    ensures UniqueIds(tasks) ==> UniqueIds(Ready(tasks))
  {
    if tasks != [] {
      var init, last := tasks[..|tasks| - 1], tasks[|tasks| - 1];
      ReadyMembers(init);
      assert tasks == init + [last];
      if UniqueIds(tasks) {
        assert forall t :: t in init ==> t.id != last.id;
      }
    }
  }

  lemma {:induction false} IdsCount(order: seq<Task>)
    requires UniqueIds(order)
    ensures |Ids(order)| == |order|
  {
    if order == [] {
      assert Ids(order) == {};
    } else {
      var init, last := order[..|order| - 1], order[|order| - 1];
      IdsCount(init);
      assert order == init + [last];
      assert last.id !in Ids(init);
      assert Ids(order) == Ids(init) + {last.id};
    }
  }

  /** While fewer tasks are claimed than are ready, something is left to claim. */
  lemma PoolNotEmpty(ready: seq<Task>, order: seq<Task>) returns (t: Task)
    requires UniqueIds(ready) && UniqueIds(order) && |order| < |ready|
    ensures t in ready && t.id !in Ids(order)
  {
    IdsCount(ready);
    IdsCount(order);
    if Ids(ready) <= Ids(order) {
      SubsetSize(Ids(ready), Ids(order));
    }
    var id :| id in Ids(ready) && id !in Ids(order);
    t :| t in ready && t.id == id;
  }

  lemma SubsetSize<T>(a: set<T>, b: set<T>)
    requires a <= b
    ensures |a| <= |b|
  {
    assert b == a + (b - a);
  }

  method Pool(ready: seq<Task>, claimed: set<string>) returns (pool: seq<Task>)
    ensures forall t :: t in pool <==> t in ready && t.id !in claimed
  {
    pool := [];
    for i := 0 to |ready|
      invariant forall t :: t in pool <==> t in ready[..i] && t.id !in claimed
    {
      assert ready[..i + 1] == ready[..i] + [ready[i]];
      if ready[i].id !in claimed {
        pool := pool + [ready[i]];
      }
    }
    assert ready[..|ready|] == ready;
  }

  /** The next claim: the pool's minimum under the freshly computed keys. */
  method PickNext(tasks: seq<Task>, group: Grouping, pool: seq<Task>, claimed: set<string>, proposed: bool)
    returns (pick: Task)
    requires UniqueIds(tasks) && Grouped(tasks, group) && pool != []
    requires forall t :: t in pool <==> Claimable(tasks, claimed, t)
    ensures BestClaim(tasks, group, claimed, pick, proposed)
  {
    hide KeyLess;
    var started, remaining := {}, map[];
    if proposed {
      started, remaining := GroupState(tasks, group, claimed);
    }
    assert forall j :: 0 <= j < |pool| ==> pool[j] in pool && Claimable(tasks, claimed, pool[j]);
    pick := pool[0];
    var best := KeyFrom(group, started, remaining, pick, proposed);
    for i := 1 to |pool|
      invariant pick in pool && best == RankKey(tasks, group, claimed, pick, proposed)
      invariant forall j :: 0 <= j < i ==>
        pool[j] == pick || KeyLess(best, RankKey(tasks, group, claimed, pool[j], proposed))
    {
      var k := KeyFrom(group, started, remaining, pool[i], proposed);
      if pool[i] != pick {
        KeyLessOrders(best, k, k);
      }
      if KeyLess(k, best) {
        forall j | 0 <= j < i
          ensures KeyLess(k, RankKey(tasks, group, claimed, pool[j], proposed))
        {
          KeyLessOrders(k, best, RankKey(tasks, group, claimed, pool[j], proposed));
        }
        pick, best := pool[i], k;
      }
    }
  }

  function KeyFrom(group: Grouping, started: set<Front>, remaining: map<Front, nat>, t: Task, proposed: bool): Key
    requires t.id in group
  {
    var key := group[t.id];
    if !proposed then CurrentKey(t)
    else Key(!IsCritical(t), 0, if key in started then 0 else 1,
             if key !in started then 0 else if key in remaining then remaining[key] else 0,
             PriorityOf(t.priority), t.createdAt, t.id)
  }

  lemma ReplayExtends(tasks: seq<Task>, group: Grouping, order: seq<Task>, pick: Task, proposed: bool)
    requires Grouped(tasks, group) && IsReplay(tasks, group, order, proposed) && UniqueIds(order)
    requires BestClaim(tasks, group, Ids(order), pick, proposed)
    ensures IsReplay(tasks, group, order + [pick], proposed)
    ensures UniqueIds(order + [pick]) && Ids(order + [pick]) == Ids(order) + {pick.id}
  {
    assert forall t :: t in order ==> t.id in Ids(order);
    forall i | 0 <= i < |order| + 1
      ensures BestClaim(tasks, group, Ids((order + [pick])[..i]), (order + [pick])[i], proposed)
    {
      assert (order + [pick])[..i] == order[..i];
      assert order[..|order|] == order;
    }
  }

  method Replay(tasks: seq<Task>, group: Grouping, picks: int, proposed: bool) returns (order: seq<Task>)
    requires UniqueIds(tasks) && Grouped(tasks, group)
    ensures IsReplay(tasks, group, order, proposed)
    ensures |order| == if picks < 0 then 0 else if picks < |Ready(tasks)| then picks else |Ready(tasks)|
    ensures forall i :: 0 <= i < |order| ==>
      if proposed then RightClaim(tasks, group, Ids(order[..i]), order[i])
      else RightCurrentClaim(tasks, Ids(order[..i]), order[i])
  {
    hide RightClaim, RightCurrentClaim;
    var ready := [];
    for i := 0 to |tasks|
      invariant ready == Ready(tasks[..i])
    {
      assert tasks[..i + 1][..i] == tasks[..i];
      if StageOf(tasks[i].state) == Queued {
        ready := ready + [tasks[i]];
      }
    }
    assert tasks[..|tasks|] == tasks;
    ReadyMembers(tasks);
    var claimed := {};
    order := [];
    var rounds := if picks < |ready| then picks else |ready|;
    if rounds < 0 {
      return;
    }
    for n := 0 to rounds
      invariant |order| == n && UniqueIds(order) && claimed == Ids(order)
      invariant IsReplay(tasks, group, order, proposed)
    {
      var pool := Pool(ready, claimed);
      ghost var some := PoolNotEmpty(ready, order);
      assert some in pool;
      var pick := PickNext(tasks, group, pool, claimed, proposed);
      ReplayExtends(tasks, group, order, pick, proposed);
      claimed := claimed + {pick.id};
      order := order + [pick];
    }
    forall i | 0 <= i < |order|
      ensures if proposed then RightClaim(tasks, group, Ids(order[..i]), order[i])
              else RightCurrentClaim(tasks, Ids(order[..i]), order[i])
    {
      ReplayIsRight(tasks, group, order, proposed, i);
    }
  }
}
