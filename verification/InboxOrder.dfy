/** The inbox's use of the ranking: concern positions after the membership filter, the work buckets,
    and the order inside a bucket. */
module InboxOrder {
  import opened Text
  import opened Sorting
  import opened BlockerGraph
  import opened RootCauses
  import opened ConcernRanking

  // ----- Positions

  predicate HoldsMember(r: RankedRoot, membership: set<string>) {
    exists id :: id in r.root.held && r.root.held[id].project in membership
  }

  /** The ranked roots that hold something in a project of the actor, order kept. */
  function Kept(ranked: seq<RankedRoot>, membership: set<string>): seq<RankedRoot> {
    if ranked == [] then []
    else
      var init := Kept(ranked[..|ranked| - 1], membership);
      if HoldsMember(ranked[|ranked| - 1], membership) then init + [ranked[|ranked| - 1]] else init
  }

  /** `pos` sends a task to the first of `kept` that holds it, and only held tasks have one. */
  ghost predicate FirstHolder(kept: seq<RankedRoot>, pos: map<string, nat>) {
    && (forall id :: id in pos ==>
      && pos[id] < |kept| && id in kept[pos[id]].root.held
      && forall k :: 0 <= k < pos[id] ==> id !in kept[k].root.held)
    && (forall k, id :: 0 <= k < |kept| && id in kept[k].root.held ==> id in pos)
  }

  lemma FirstHolderUnique(kept: seq<RankedRoot>, a: map<string, nat>, b: map<string, nat>)
    requires FirstHolder(kept, a) && FirstHolder(kept, b)
    ensures a == b
  {
    assert a.Keys == b.Keys;
    forall id | id in a
      ensures a[id] == b[id]
    {
      if a[id] < b[id] || b[id] < a[id] {}
    }
  }

  lemma {:induction false} KeptMembers(ranked: seq<RankedRoot>, membership: set<string>)
    ensures forall r :: r in Kept(ranked, membership) <==> r in ranked && HoldsMember(r, membership)
  {
    if ranked != [] {
      var init, last := ranked[..|ranked| - 1], ranked[|ranked| - 1];
      KeptMembers(init, membership);
      assert ranked == init + [last];
    }
  }

  /** Filtering keeps the ranking's order: of two kept roots the better-ranked one stays first. */
  lemma {:induction false} KeptInOrder(ranked: seq<RankedRoot>, membership: set<string>) returns (from: seq<nat>)
    ensures |from| == |Kept(ranked, membership)|
    ensures forall i :: 0 <= i < |from| ==> from[i] < |ranked| && ranked[from[i]] == Kept(ranked, membership)[i]
    ensures forall i, j :: 0 <= i < j < |from| ==> from[i] < from[j]
  {
    if ranked == [] {
      from := [];
    } else {
      from := KeptInOrder(ranked[..|ranked| - 1], membership);
      if HoldsMember(ranked[|ranked| - 1], membership) {
        from := from + [|ranked| - 1];
      }
    }
  }

  lemma RootIsExposed(roots: Roots, now: int, stats: seq<Stat>, key: string) returns (r: RankedRoot)
    requires IsRanking(roots, now, stats) && key in roots
    ensures r in Exposed(stats) && r.root == roots[key]
  {
    assert Scored(stats, key);
    var s :| s in stats && s.root.ref.id == key;
    var i :| 0 <= i < |stats| && stats[i] == s;
    r := Exposed(stats)[i];
  }

  lemma KeptRootHasPosition(ranked: seq<RankedRoot>, membership: set<string>, pos: map<string, nat>,
                            r: RankedRoot, id: string)
    requires FirstHolder(Kept(ranked, membership), pos)
    requires r in ranked && id in r.root.held && r.root.held[id].project in membership
    ensures id in pos
  {
    KeptMembers(ranked, membership);
    var k :| 0 <= k < |Kept(ranked, membership)| && Kept(ranked, membership)[k] == r;
  }

  /** On any graph, every ready-and-blocked task of a member project has a position. */
  lemma MemberTaskHasPosition(facts: seq<WorkFact>, now: int, stats: seq<Stat>, membership: set<string>,
                              pos: map<string, nat>, f: WorkFact)
    requires UniqueIds(facts) && WellKeyed(ById(facts))
    requires IsRanking(MarkFacts(facts).roots, now, stats)
    requires FirstHolder(Kept(Exposed(stats), membership), pos)
    requires f in facts && IsHeld(f) && f.Blocked() && f.project in membership
    ensures f.id in pos
  {
    EveryHeldTaskHasRoot(facts, f);
    var key :| Holds(MarkFacts(facts).roots, key, f.id);
    var r := RootIsExposed(MarkFacts(facts).roots, now, stats, key);
    assert r.root.held[f.id] == f by {
      MarkFactsSound(facts);
      ByIdMembers(facts);
    }
    KeptRootHasPosition(Exposed(stats), membership, pos, r, f.id);
  }

  method FindMember(r: RankedRoot, membership: set<string>) returns (member: bool)
    ensures member == HoldsMember(r, membership)
  {
    var todo := r.root.held.Keys;
    while todo != {}
      invariant todo <= r.root.held.Keys
      invariant forall id :: id in r.root.held && id !in todo ==> r.root.held[id].project !in membership
      decreases todo
    {
      var id :| id in todo;
      todo := todo - {id};
      if r.root.held[id].project in membership {
        return true;
      }
    }
    return false;
  }

  /** Gives `rank` to the root's tasks that have no better position yet. */
  method Place(r: RankedRoot, rank: nat, pos: map<string, nat>) returns (out: map<string, nat>)
    ensures out.Keys == pos.Keys + r.root.held.Keys
    ensures forall id :: id in out ==> out[id] == if id in pos then pos[id] else rank
  {
    out := pos;
    var todo := r.root.held.Keys;
    while todo != {}
      invariant todo <= r.root.held.Keys
      invariant out.Keys == pos.Keys + (r.root.held.Keys - todo)
      invariant forall id :: id in out ==> out[id] == if id in pos then pos[id] else rank
      decreases todo
    {
      var id :| id in todo;
      todo := todo - {id};
      if id !in out {
        out := out[id := rank];
      }
    }
  }

  method PlaceAll(ranked: seq<RankedRoot>, membership: set<string>) returns (pos: map<string, nat>)
    ensures FirstHolder(Kept(ranked, membership), pos)
  {
    pos := map[];
    var rank := 0;
    for i := 0 to |ranked|
      invariant rank == |Kept(ranked[..i], membership)|
      invariant FirstHolder(Kept(ranked[..i], membership), pos)
    {
      assert ranked[..i + 1][..i] == ranked[..i];
      ghost var kept := Kept(ranked[..i], membership);
      var member := FindMember(ranked[i], membership);
      if !member {
        continue;
      }
      ghost var before := pos;
      pos := Place(ranked[i], rank, pos);
      rank := rank + 1;
      assert Kept(ranked[..i + 1], membership) == kept + [ranked[i]];
      assert FirstHolder(kept + [ranked[i]], pos) by {
        forall k, id | 0 <= k < |kept| + 1 && id in (kept + [ranked[i]])[k].root.held
          ensures id in pos
        {
          if k < |kept| { assert id in kept[k].root.held; }
        }
      }
    }
    assert ranked[..|ranked|] == ranked;
  }

  method ConcernPositions(facts: seq<WorkFact>, membership: set<string>, now: int) returns (pos: map<string, nat>)
    requires UniqueIds(facts) && WellKeyed(ById(facts))
    ensures exists stats ::
      && IsRanking(MarkFacts(facts).roots, now, stats)
      && FirstHolder(Kept(Exposed(stats), membership), pos)
    ensures forall f :: f in facts && IsHeld(f) && f.Blocked() && f.project in membership ==> f.id in pos
  {
    var ranked, _ := RankConcernRoots(facts, now);
    pos := PlaceAll(ranked, membership);
    ghost var stats :| IsRanking(MarkFacts(facts).roots, now, stats) && ranked == Exposed(stats);
    forall f | f in facts && IsHeld(f) && f.Blocked() && f.project in membership
      ensures f.id in pos
    {
      MemberTaskHasPosition(facts, now, stats, membership, pos, f);
    }
  }

  // ----- Buckets

  datatype Bucket = Assigned | Owned | Near

  predicate Active(f: WorkFact) {
    f.state in {"ready", "in_progress", "in_review"}
  }

  predicate BelongsIn(f: WorkFact, b: Bucket, actor: string, membership: set<string>) {
    (f.state == "ready" || f.state == "in_progress" || f.state == "in_review") &&
    match b
    case Assigned => f.assignee == actor
    case Owned => f.assignee != actor && f.createdBy == actor
    case Near => f.assignee != actor && f.createdBy != actor && f.project in membership
  }

  /** Each work bucket holds exactly its own tasks, none twice, and no task sits in two buckets. */
  method SplitWork(facts: seq<WorkFact>, actor: string, membership: set<string>)
    returns (assignedWork: seq<WorkFact>, ownedWork: seq<WorkFact>, nearWork: seq<WorkFact>)
    requires UniqueIds(facts)
    ensures forall f :: f in assignedWork <==> f in facts && BelongsIn(f, Assigned, actor, membership)
    ensures forall f :: f in ownedWork <==> f in facts && BelongsIn(f, Owned, actor, membership)
    ensures forall f :: f in nearWork <==> f in facts && BelongsIn(f, Near, actor, membership)
    ensures UniqueIds(assignedWork + ownedWork + nearWork)
  {
    assignedWork, ownedWork, nearWork := [], [], [];
    for i := 0 to |facts|
      invariant forall f :: f in assignedWork <==> f in facts[..i] && BelongsIn(f, Assigned, actor, membership)
      invariant forall f :: f in ownedWork <==> f in facts[..i] && BelongsIn(f, Owned, actor, membership)
      invariant forall f :: f in nearWork <==> f in facts[..i] && BelongsIn(f, Near, actor, membership)
      invariant UniqueIds(assignedWork) && UniqueIds(ownedWork) && UniqueIds(nearWork)
    {
      var f := facts[i];
      assert facts[..i + 1] == facts[..i] + [f];
      assert forall g :: g in facts[..i] ==> g.id != f.id;
      if !Active(f) {
        continue;
      }
      if f.assignee == actor {
        assignedWork := assignedWork + [f];
      } else if f.createdBy == actor {
        ownedWork := ownedWork + [f];
      } else if f.project in membership {
        nearWork := nearWork + [f];
      }
    }
    assert facts[..|facts|] == facts;
    DisjointUnique(facts, assignedWork, ownedWork);
    DisjointUnique(facts, assignedWork + ownedWork, nearWork);
  }

  lemma DisjointUnique(facts: seq<WorkFact>, a: seq<WorkFact>, b: seq<WorkFact>)
    requires UniqueIds(facts) && UniqueIds(a) && UniqueIds(b)
    requires forall f :: f in a || f in b ==> f in facts
    requires forall f :: f in a ==> f !in b
    ensures UniqueIds(a + b)
  {
    forall i, j | 0 <= i < j < |a + b|
      ensures (a + b)[i].id != (a + b)[j].id
    {
      if i < |a| && j >= |a| {
        assert a[i] in a && b[j - |a|] in b;
      }
    }
  }

  // ----- The order inside a bucket

  function Before(pos: map<string, nat>): (WorkFact, WorkFact) -> bool {
    (a: WorkFact, b: WorkFact) =>
      if (a.id in pos) != (b.id in pos) then a.id in pos
      else if a.id in pos && pos[a.id] != pos[b.id] then pos[a.id] < pos[b.id]
      else if PriorityRank(a.priority) != PriorityRank(b.priority) then PriorityRank(a.priority) < PriorityRank(b.priority)
      else LexLess(a.id, b.id)
  }

  lemma BeforeOrders(pos: map<string, nat>)
    ensures Transitive(Before(pos)) && Asymmetric(Before(pos))
  {
    var less := Before(pos);
    forall x, y, z | less(x, y) && less(y, z)
      ensures less(x, z)
    {
      if LexLess(x.id, y.id) && LexLess(y.id, z.id) {
        LexTransitive(x.id, y.id, z.id);
      }
    }
    forall x, y | less(x, y)
      ensures !less(y, x)
    {
      if LexLess(x.id, y.id) {
        LexAsymmetric(x.id, y.id);
      }
    }
  }

  /** Tasks that a kept root holds come first, in its order; then by priority, then by id. */
  predicate EarlierItem(pos: map<string, nat>, a: WorkFact, b: WorkFact) {
    || (a.id in pos && (b.id !in pos || pos[a.id] < pos[b.id]))
    || ((if a.id in pos then b.id in pos && pos[a.id] == pos[b.id] else b.id !in pos) &&
        (MoreUrgent(a.priority, b.priority) || (!MoreUrgent(b.priority, a.priority) && LexLess(a.id, b.id))))
  }

  lemma BeforeTold(pos: map<string, nat>)
    ensures forall a, b :: Before(pos)(a, b) <==> EarlierItem(pos, a, b)
  {
  }

  function WorkItems(facts: seq<WorkFact>, pos: map<string, nat>): seq<WorkFact> {
    Sort(Before(pos), facts)
  }

  /** A bucket of tasks with unique ids has one order: the positioned tasks first, by position, and any
      other arrangement of the same tasks sorts to the same list. */
  lemma WorkItemsOrder(facts: seq<WorkFact>, other: seq<WorkFact>, pos: map<string, nat>)
    requires UniqueIds(facts) && UniqueIds(other) && multiset(other) == multiset(facts)
    ensures WorkItems(facts, pos) == WorkItems(other, pos)
    ensures multiset(WorkItems(facts, pos)) == multiset(facts) && |WorkItems(facts, pos)| == |facts|
    ensures forall i, j :: 0 <= i < j < |facts| && WorkItems(facts, pos)[j].id in pos ==>
      WorkItems(facts, pos)[i].id in pos && pos[WorkItems(facts, pos)[i].id] <= pos[WorkItems(facts, pos)[j].id]
    ensures forall i, j :: 0 <= i < j < |facts| ==> EarlierItem(pos, WorkItems(facts, pos)[i], WorkItems(facts, pos)[j])
  {
    BeforeOrders(pos);
    BeforeConnects(pos, facts);
    BeforeConnects(pos, other);
    SortSorts(Before(pos), facts);
    SortSorts(Before(pos), other);
    SortPermutes(Before(pos), facts);
    SortPermutes(Before(pos), other);
    SameMembers(WorkItems(facts, pos), WorkItems(other, pos));
    SameMembers(WorkItems(facts, pos), facts);
    SortedUnique(Before(pos), WorkItems(facts, pos), WorkItems(other, pos));
    BeforeTold(pos);
    assert |WorkItems(facts, pos)| == |multiset(WorkItems(facts, pos))| == |facts|;
  }

  lemma BeforeConnects(pos: map<string, nat>, facts: seq<WorkFact>)
    requires UniqueIds(facts)
    ensures Connected(Before(pos), facts)
  {
    forall i, j | 0 <= i < j < |facts|
      ensures Before(pos)(facts[i], facts[j]) || Before(pos)(facts[j], facts[i])
    {
      LexTotal(facts[i].id, facts[j].id);
    }
  }
}
