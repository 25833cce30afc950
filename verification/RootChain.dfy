/** `rootChain`: the diagram of what a root holds up, drawn from the tasks filed under each blocker. */
module RootChain {
  import opened Text
  import opened Sorting
  import opened BlockerGraph
  import opened RootCauses
  import opened ConcernRanking

  /** One drawn task; the root's direct children carry their priority. */
  datatype Node = Node(id: string, priority: Option<string>, kids: seq<Node>)

  predicate ChildLess(a: WorkFact, b: WorkFact) {
    || PriorityRank(a.priority) < PriorityRank(b.priority)
    || (PriorityRank(a.priority) == PriorityRank(b.priority) && LexLess(a.id, b.id))
  }

  lemma ChildLessOrders()
    ensures Transitive(ChildLess) && Asymmetric(ChildLess)
  {
    forall x, y, z | ChildLess(x, y) && ChildLess(y, z)
      ensures ChildLess(x, z)
    {
      if LexLess(x.id, y.id) && LexLess(y.id, z.id) {
        LexTransitive(x.id, y.id, z.id);
      }
    }
    forall x, y | ChildLess(x, y)
      ensures !ChildLess(y, x)
    {
      if LexLess(x.id, y.id) {
        LexAsymmetric(x.id, y.id);
      }
    }
  }

  function Kids(children: Children, id: string): seq<WorkFact> {
    Sort(ChildLess, Under(children, id))
  }

  lemma KidsMembers(children: Children, id: string)
    ensures forall k :: k in Kids(children, id) <==> k in Under(children, id)
  {
    SortPermutes(ChildLess, Under(children, id));
    SameMembers(Kids(children, id), Under(children, id));
  }

  datatype Drawn = Drawn(nodes: seq<Node>, visited: set<string>)

  /** A task drawn before is named again, but what it holds up is drawn only once. */
  function Draw(children: Children, h: WorkFact, direct: bool, visited: set<string>): (out: Drawn)
    ensures visited <= out.visited
    decreases children.Keys - visited, 0
  {
    var priority := if direct then Some(h.priority) else None;
    var kids := Kids(children, h.id);
    if h.id in visited || kids == [] then Drawn([Node(h.id, priority, [])], visited + {h.id})
    else
      var below := DrawAll(children, kids, false, visited + {h.id});
      Drawn([Node(h.id, priority, below.nodes)], below.visited)
  }

  function DrawAll(children: Children, hs: seq<WorkFact>, direct: bool, visited: set<string>): (out: Drawn)
    ensures visited <= out.visited
    decreases children.Keys - visited, |hs|
  {
    if hs == [] then Drawn([], visited)
    else
      var first := Draw(children, hs[0], direct, visited);
      var rest := DrawAll(children, hs[1..], direct, first.visited);
      Drawn(first.nodes + rest.nodes, rest.visited)
  }

  function Diagram(root: ConcernRoot): seq<Node> {
    DrawAll(root.children, Kids(root.children, root.ref.id), true, {root.ref.id}).nodes
  }

  // ----- What is drawn

  function Ids(nodes: seq<Node>): set<string> {
    if nodes == [] then {} else {nodes[0].id} + Ids(nodes[0].kids) + Ids(nodes[1..])
  }

  lemma {:induction false} IdsSplit(a: seq<Node>, b: seq<Node>)
    ensures Ids(a + b) == Ids(a) + Ids(b)
  {
    if a == [] {
      assert a + b == b;
    } else {
      assert (a + b)[0] == a[0] && (a + b)[1..] == a[1..] + b;
      IdsSplit(a[1..], b);
    }
  }

  predicate FiledUnder(children: Children, id: string, child: string) {
    exists k :: k in Under(children, id) && k.id == child
  }

  ghost predicate Line(children: Children, p: seq<string>) {
    |p| >= 2 && forall i :: 0 <= i < |p| - 1 ==> FiledUnder(children, p[i], p[i + 1])
  }

  /** From `a` down to `b` along filed children. */
  ghost predicate LeadsTo(children: Children, a: string, b: string) {
    exists p :: Line(children, p) && p[0] == a && p[|p| - 1] == b
  }

  lemma LeadsOn(children: Children, a: string, mid: string, b: string)
    requires FiledUnder(children, a, mid)
    requires mid == b || LeadsTo(children, mid, b)
    ensures LeadsTo(children, a, b)
  {
    var p := [mid];
    if mid != b {
      p :| Line(children, p) && p[0] == mid && p[|p| - 1] == b;
    }
    var q := [a] + p;
    forall i | 0 <= i < |q| - 1
      ensures FiledUnder(children, q[i], q[i + 1])
    {
      assert q[i + 1] == p[i] && (i > 0 ==> q[i] == p[i - 1]);
    }
    assert Line(children, q);
  }

  /** Each list of tasks is drawn in order, marks exactly what it draws, draws nothing that does not
      hang below it, and draws everything filed under what it marks. */
  ghost predicate DrawsWell(children: Children, hs: seq<WorkFact>, visited: set<string>, out: Drawn) {
    && out.visited == visited + Ids(out.nodes)
    && (forall h :: h in hs ==> h.id in Ids(out.nodes))
    && (forall id :: id in Ids(out.nodes) ==> exists h :: h in hs && (h.id == id || LeadsTo(children, h.id, id)))
    && (forall id, k :: id in out.visited - visited && FiledUnder(children, id, k) ==> k in Ids(out.nodes))
  }

  lemma {:induction false} DrawReaches(children: Children, h: WorkFact, direct: bool, visited: set<string>)
    ensures DrawsWell(children, [h], visited, Draw(children, h, direct, visited))
    decreases children.Keys - visited, 0
  {
    var kids, out := Kids(children, h.id), Draw(children, h, direct, visited);
    assert out == Drawn([out.nodes[0]], out.visited);
    if h.id in visited || kids == [] {
      DrawsBare(children, h, visited, out.nodes[0]);
    } else {
      hide DrawsWell;
      DrawAllReaches(children, kids, false, visited + {h.id});
      DrawsBelow(children, h, visited, out.nodes[0], DrawAll(children, kids, false, visited + {h.id}));
    }
  }

  lemma DrawsBare(children: Children, h: WorkFact, visited: set<string>, n: Node)
    requires n.id == h.id && n.kids == [] && (h.id in visited || Kids(children, h.id) == [])
    ensures DrawsWell(children, [h], visited, Drawn([n], visited + {h.id}))
  {
    KidsMembers(children, h.id);
    assert [n][1..] == [] && Ids([n]) == {h.id} && h in [h];
    assert h.id !in visited ==> forall k :: !FiledUnder(children, h.id, k);
  }

  lemma DrawsBelow(children: Children, h: WorkFact, visited: set<string>, n: Node, below: Drawn)
    requires n.id == h.id && n.kids == below.nodes && h.id !in visited
    requires DrawsWell(children, Kids(children, h.id), visited + {h.id}, below)
    ensures DrawsWell(children, [h], visited, Drawn([n], below.visited))
  {
    KidsMembers(children, h.id);
    assert [n][1..] == [] && Ids([n]) == {h.id} + Ids(below.nodes) && h in [h];
    hide Ids, Kids, LeadsTo;
    forall id | id in Ids(below.nodes)
      ensures LeadsTo(children, h.id, id)
    {
      var k :| k in Kids(children, h.id) && (k.id == id || LeadsTo(children, k.id, id));
      LeadsOn(children, h.id, k.id, id);
    }
  }

  lemma DrawsWellThen(children: Children, h: WorkFact, hs: seq<WorkFact>, visited: set<string>, a: Drawn, b: Drawn)
    requires DrawsWell(children, [h], visited, a) && DrawsWell(children, hs, a.visited, b)
    ensures DrawsWell(children, [h] + hs, visited, Drawn(a.nodes + b.nodes, b.visited))
  {
    IdsSplit(a.nodes, b.nodes);
    hide Ids, LeadsTo, FiledUnder;
    assert forall x :: x in [h] + hs <==> x == h || x in hs;
  }

  lemma {:induction false} DrawAllReaches(children: Children, hs: seq<WorkFact>, direct: bool, visited: set<string>)
    ensures DrawsWell(children, hs, visited, DrawAll(children, hs, direct, visited))
    decreases children.Keys - visited, |hs|
  {
    if hs == [] {
      assert Ids([]) == {};
    } else {
      hide Draw, DrawsWell, Kids, Ids, FiledUnder, LeadsTo;
      var first := Draw(children, hs[0], direct, visited);
      var rest := DrawAll(children, hs[1..], direct, first.visited);
      assert DrawAll(children, hs, direct, visited) == Drawn(first.nodes + rest.nodes, rest.visited);
      hide DrawAll;
      DrawReaches(children, hs[0], direct, visited);
      DrawAllReaches(children, hs[1..], direct, first.visited);
      DrawsWellThen(children, hs[0], hs[1..], visited, first, rest);
      assert [hs[0]] + hs[1..] == hs;
    }
  }

  /** Whatever was filed, in cycles or not: the diagram shows exactly the tasks filed under the root,
      directly or through other tasks. */
  lemma ShownExactly(root: ConcernRoot, id: string)
    ensures id in Ids(Diagram(root)) <==> LeadsTo(root.children, root.ref.id, id)
  {
    var children, top := root.children, root.ref.id;
    var kids := Kids(children, top);
    KidsMembers(children, top);
    DrawAllReaches(children, kids, true, {top});
    var out := DrawAll(children, kids, true, {top});
    if id in Ids(out.nodes) {
      var h :| h in kids && (h.id == id || LeadsTo(children, h.id, id));
      LeadsOn(children, top, h.id, id);
    }
    if LeadsTo(children, top, id) {
      var p :| Line(children, p) && p[0] == top && p[|p| - 1] == id;
      for i := 1 to |p|
        invariant i > 1 ==> p[i - 1] in Ids(out.nodes)
      {
        assert FiledUnder(children, p[i - 1], p[i]);
      }
    }
  }

  // ----- Nothing is drawn twice

  /** The drawn tasks that have something drawn below them, top down. */
  function Expanded(nodes: seq<Node>): seq<string> {
    if nodes == [] then []
    else (if nodes[0].kids == [] then [] else [nodes[0].id]) + Expanded(nodes[0].kids) + Expanded(nodes[1..])
  }

  /** Where anything is drawn below a task, it is all that is filed under it, best priority first. */
  predicate Complete(children: Children, nodes: seq<Node>) {
    nodes == [] ||
    (&& (nodes[0].kids == [] || NamesOf(nodes[0].kids) == IdsOf(Kids(children, nodes[0].id)))
     && Complete(children, nodes[0].kids) && Complete(children, nodes[1..]))
  }

  function NamesOf(nodes: seq<Node>): seq<string> {
    seq(|nodes|, i requires 0 <= i < |nodes| => nodes[i].id)
  }

  function IdsOf(hs: seq<WorkFact>): seq<string> {
    seq(|hs|, i requires 0 <= i < |hs| => hs[i].id)
  }

  predicate NoRepeats(s: seq<string>) {
    forall i, j :: 0 <= i < j < |s| ==> s[i] != s[j]
  }

  lemma {:induction false} ExpandedSplit(children: Children, a: seq<Node>, b: seq<Node>)
    ensures Expanded(a + b) == Expanded(a) + Expanded(b)
    ensures Complete(children, a + b) <==> Complete(children, a) && Complete(children, b)
  {
    hide Kids, IdsOf, NamesOf;
    if a == [] {
      assert a + b == b;
    } else {
      assert (a + b)[0] == a[0] && (a + b)[1..] == a[1..] + b;
      ExpandedSplit(children, a[1..], b);
    }
  }

  ghost predicate DrawsOnce(children: Children, visited: set<string>, out: Drawn) {
    && NoRepeats(Expanded(out.nodes))
    && Complete(children, out.nodes)
    && forall id :: id in Expanded(out.nodes) <==> id in out.visited - visited && Under(children, id) != []
  }

  lemma KidsEmpty(children: Children, id: string)
    ensures Kids(children, id) == [] <==> Under(children, id) == []
  {
    SortPermutes(ChildLess, Under(children, id));
    SameMembers(Kids(children, id), Under(children, id));
  }

  lemma {:induction false} DrawAllNames(children: Children, hs: seq<WorkFact>, direct: bool, visited: set<string>)
    ensures NamesOf(DrawAll(children, hs, direct, visited).nodes) == IdsOf(hs)
    decreases |hs|
  {
    if hs != [] {
      var first := Draw(children, hs[0], direct, visited);
      assert NamesOf(first.nodes) == [hs[0].id];
      hide Draw;
      DrawAllNames(children, hs[1..], direct, first.visited);
      var rest := DrawAll(children, hs[1..], direct, first.visited);
      assert NamesOf(first.nodes + rest.nodes) == NamesOf(first.nodes) + NamesOf(rest.nodes);
      assert IdsOf(hs) == [hs[0].id] + IdsOf(hs[1..]);
    }
  }

  lemma BareOnce(children: Children, n: Node)
    requires n.kids == []
    ensures Expanded([n]) == [] && Complete(children, [n])
  {
    assert [n][1..] == [];
    assert Complete(children, n.kids);
  }

  lemma DrawsOnceBelow(children: Children, n: Node, visited: set<string>, below: Drawn)
    requires n.id !in visited && Under(children, n.id) != [] && visited + {n.id} <= below.visited
    requires n.kids == below.nodes && n.kids != [] && NamesOf(n.kids) == IdsOf(Kids(children, n.id))
    requires DrawsOnce(children, visited + {n.id}, below)
    ensures DrawsOnce(children, visited, Drawn([n], below.visited))
  {
    assert [n][1..] == [];
    assert Expanded([n]) == [n.id] + Expanded(below.nodes);
    assert n.id !in Expanded(below.nodes);
  }

  lemma {:induction false} DrawOnce(children: Children, h: WorkFact, direct: bool, visited: set<string>)
    ensures DrawsOnce(children, visited, Draw(children, h, direct, visited))
    decreases children.Keys - visited, 0
  {
    var kids, out := Kids(children, h.id), Draw(children, h, direct, visited);
    KidsEmpty(children, h.id);
    if h.id in visited || kids == [] {
      BareOnce(children, out.nodes[0]);
      assert out.nodes == [out.nodes[0]];
    } else {
      hide DrawsOnce, Expanded, Complete, Under, Kids;
      var below := DrawAll(children, kids, false, visited + {h.id});
      DrawAllOnce(children, kids, false, visited + {h.id});
      DrawAllNames(children, kids, false, visited + {h.id});
      assert |NamesOf(below.nodes)| == |kids|;
      assert out == Drawn([out.nodes[0]], below.visited);
      DrawsOnceBelow(children, out.nodes[0], visited, below);
    }
  }

  lemma DrawsOnceThen(children: Children, visited: set<string>, a: Drawn, b: Drawn)
    requires visited <= a.visited <= b.visited
    requires DrawsOnce(children, visited, a) && DrawsOnce(children, a.visited, b)
    ensures DrawsOnce(children, visited, Drawn(a.nodes + b.nodes, b.visited))
  {
    ExpandedSplit(children, a.nodes, b.nodes);
    hide Expanded, Complete, Under;
    var s, t := Expanded(a.nodes), Expanded(b.nodes);
    forall i, j | 0 <= i < j < |s + t|
      ensures (s + t)[i] != (s + t)[j]
    {
      if i < |s| <= j {
        assert s[i] in s && t[j - |s|] in t;
      }
    }
    assert forall id :: id in s + t <==> id in s || id in t;
  }

  lemma {:induction false} DrawAllOnce(children: Children, hs: seq<WorkFact>, direct: bool, visited: set<string>)
    ensures DrawsOnce(children, visited, DrawAll(children, hs, direct, visited))
    decreases children.Keys - visited, |hs|
  {
    if hs != [] {
      hide Draw, Expanded, Complete, DrawsOnce, Under;
      var first := Draw(children, hs[0], direct, visited);
      var rest := DrawAll(children, hs[1..], direct, first.visited);
      DrawOnce(children, hs[0], direct, visited);
      DrawAllOnce(children, hs[1..], direct, first.visited);
      DrawsOnceThen(children, visited, first, rest);
    }
  }

  /** Whatever was filed: under each shown task that has children all of them are drawn, in one place. */
  lemma DrawnOnce(root: ConcernRoot)
    ensures NamesOf(Diagram(root)) == IdsOf(Kids(root.children, root.ref.id))
    ensures Complete(root.children, Diagram(root)) && NoRepeats(Expanded(Diagram(root)))
    ensures forall id :: id in Expanded(Diagram(root)) <==>
      id != root.ref.id && id in Ids(Diagram(root)) && Under(root.children, id) != []
  {
    DrawAllNames(root.children, Kids(root.children, root.ref.id), true, {root.ref.id});
    DrawAllOnce(root.children, Kids(root.children, root.ref.id), true, {root.ref.id});
    DrawAllReaches(root.children, Kids(root.children, root.ref.id), true, {root.ref.id});
  }

  // ----- What a node says

  /** No priority on any of the nodes, nor below them. */
  predicate Plain(nodes: seq<Node>) {
    nodes == [] || (nodes[0].priority.None? && Plain(nodes[0].kids) && Plain(nodes[1..]))
  }

  ghost predicate Labelled(hs: seq<WorkFact>, direct: bool, nodes: seq<Node>) {
    && |nodes| == |hs|
    && forall i :: 0 <= i < |hs| ==>
      nodes[i].id == hs[i].id && nodes[i].priority == (if direct then Some(hs[i].priority) else None) && Plain(nodes[i].kids)
  }

  lemma {:induction false} LabelledPlain(hs: seq<WorkFact>, nodes: seq<Node>)
    requires Labelled(hs, false, nodes)
    ensures Plain(nodes)
    decreases |hs|
  {
    if hs != [] { LabelledPlain(hs[1..], nodes[1..]); }
  }

  lemma {:induction false} DrawLabels(children: Children, h: WorkFact, direct: bool, visited: set<string>)
    ensures Labelled([h], direct, Draw(children, h, direct, visited).nodes)
    decreases children.Keys - visited, 0
  {
    var kids := Kids(children, h.id);
    if h.id !in visited && kids != [] {
      hide Labelled, Plain;
      DrawAllLabels(children, kids, false, visited + {h.id});
      LabelledPlain(kids, DrawAll(children, kids, false, visited + {h.id}).nodes);
    }
    OneLabelled(children, h, direct, visited);
  }

  lemma OneLabelled(children: Children, h: WorkFact, direct: bool, visited: set<string>)
    requires h.id in visited || Kids(children, h.id) == [] || Plain(DrawAll(children, Kids(children, h.id), false, visited + {h.id}).nodes)
    ensures Labelled([h], direct, Draw(children, h, direct, visited).nodes)
  {
    hide DrawAll, Kids;
  }

  lemma {:induction false} DrawAllLabels(children: Children, hs: seq<WorkFact>, direct: bool, visited: set<string>)
    ensures Labelled(hs, direct, DrawAll(children, hs, direct, visited).nodes)
    decreases children.Keys - visited, |hs|
  {
    if hs != [] {
      hide Draw, Plain;
      var first := Draw(children, hs[0], direct, visited);
      DrawLabels(children, hs[0], direct, visited);
      DrawAllLabels(children, hs[1..], direct, first.visited);
    }
  }

  /** By priority, then by id. */
  predicate EarlierKid(a: WorkFact, b: WorkFact) {
    MoreUrgent(a.priority, b.priority) || (!MoreUrgent(b.priority, a.priority) && LexLess(a.id, b.id))
  }

  /** What is filed under a task comes most urgent first, then by id. */
  lemma KidsInOrder(children: Children, id: string)
    ensures multiset(Kids(children, id)) == multiset(Under(children, id))
    ensures forall i, j :: 0 <= i < j < |Kids(children, id)| ==> !EarlierKid(Kids(children, id)[j], Kids(children, id)[i])
  {
    ChildLessOrders();
    SortPermutes(ChildLess, Under(children, id));
    SortOrders(ChildLess, Under(children, id));
    ChildLessTold();
    hide ChildLess, EarlierKid, Under;
  }

  lemma ChildLessTold()
    ensures forall a, b :: ChildLess(a, b) <==> EarlierKid(a, b)
  {
  }

  /** The diagram's top line names what is filed under the root with its priority; nothing further down carries
      one. */
  lemma PrioritiesOnTop(root: ConcernRoot)
    ensures var kids, nodes := Kids(root.children, root.ref.id), Diagram(root);
      && |nodes| == |kids|
      && forall i :: 0 <= i < |nodes| ==>
        nodes[i].id == kids[i].id && nodes[i].priority == Some(kids[i].priority) && Plain(nodes[i].kids)
  {
    DrawAllLabels(root.children, Kids(root.children, root.ref.id), true, {root.ref.id});
  }

  // ----- What a pass files

  /** Some terminal blocker with id `key` is `ref` or stands above it. */
  ghost predicate ChasesTo(g: Facts, ref: BlockerRef, key: string) {
    exists r: BlockerRef :: r.id == key && Terminal(g, r) && Reachable(g, ref, r)
  }

  function UnderKey(roots: Roots, key: string, id: string): seq<WorkFact> {
    if key in roots then Under(roots[key].children, id) else []
  }

  /** What visits without a cycle above them file under `id` for the root `key`. */
  ghost function Filed(g: Facts, vs: seq<Visit>, key: string, id: string): multiset<WorkFact> {
    if vs == [] then multiset{}
    else
      (if vs[0].direct.id == id && ChasesTo(g, vs[0].direct, key) then multiset{vs[0].task} else multiset{})
      + Filed(g, vs[1..], key, id)
  }

  lemma {:induction false} HoldAllFiles(roots: Roots, rs: seq<BlockerRef>, v: Visit, key: string, id: string)
    requires DistinctIds(rs)
    ensures UnderKey(HoldAll(roots, rs, v), key, id) ==
      UnderKey(roots, key, id) + (if id == v.direct.id && HasId(rs, key) then [v.task] else [])
    decreases |rs|
  {
    if rs != [] {
      HoldAllFiles(Hold(roots, rs[0], v), rs[1..], v, key, id);
      if HasId(rs[1..], key) {
        var i :| 0 <= i < |rs[1..]| && rs[1..][i].id == key;
        assert rs[i + 1].id == key && rs[0].id != key;
      }
      if HasId(rs, key) {
        var i :| 0 <= i < |rs| && rs[i].id == key;
        assert i > 0 ==> rs[1..][i - 1].id == key;
      }
      if rs[0].id == key {
        assert HasId(rs, key);
      }
    }
  }

  /** Marking appends, under each blocker, exactly the tasks filed by the visits. */
  lemma {:induction false} MarkFiles(g: Facts, vs: seq<Visit>, m: Marked, key: string, id: string)
    requires WellKeyed(g) && VisitsOk(g, vs) && PassInvariant(g, m.pass.memo)
    requires forall v :: v in vs ==> AcyclicAbove(g, v.task.id)
    ensures multiset(UnderKey(Mark(g, vs, m).roots, key, id)) ==
      multiset(UnderKey(m.roots, key, id)) + Filed(g, vs, key, id)
    decreases |vs|
  {
    if vs != [] {
      var v := vs[0];
      assert v in vs;
      VisitAncestors(g, v);
      ChaseKeepsInvariant(g, v.direct, {v.task.id}, m.pass);
      CycleFreeChild(g, v.task.id, v.direct);
      ExactWhenCycleFree(g, v.direct, {v.task.id}, m.pass);
      var c := Chase(g, v.direct, {v.task.id}, m.pass);
      HoldAllFiles(m.roots, c.roots, v, key, id);
      MarkFiles(g, vs[1..], Marked(c.pass, HoldAll(m.roots, c.roots, v)), key, id);
    }
  }

  lemma {:induction false} FiledMembers(g: Facts, vs: seq<Visit>, key: string, id: string, t: WorkFact)
    ensures t in Filed(g, vs, key, id) <==>
      exists v :: v in vs && v.task == t && v.direct.id == id && ChasesTo(g, v.direct, key)
  {
    if vs != [] {
      FiledMembers(g, vs[1..], key, id, t);
      assert forall v :: v in vs <==> v == vs[0] || v in vs[1..];
    }
  }

  lemma PassFiles(facts: seq<WorkFact>, key: string, id: string)
    requires UniqueIds(facts) && WellKeyed(ById(facts)) && HeldCycleFree(facts)
    ensures multiset(UnderKey(MarkFacts(facts).roots, key, id)) ==
      Filed(ById(facts), Visits(HeldTasks(facts)), key, id)
  {
    FactsVisitsOk(facts);
    HeldTasksMembers(facts);
    VisitsMembers(HeldTasks(facts));
    MarkFiles(ById(facts), Visits(HeldTasks(facts)), Marked(Pass(map[], 0), map[]), key, id);
  }

  /** Filed under `id` for the root `key`: the held tasks with a direct blocker of that id that the root
      stands at or above. */
  lemma FiledExactly(facts: seq<WorkFact>, key: string, id: string, t: WorkFact)
    requires UniqueIds(facts) && WellKeyed(ById(facts)) && HeldCycleFree(facts)
    ensures t in UnderKey(MarkFacts(facts).roots, key, id) <==>
      t in facts && IsHeld(t) && exists d :: d in DirectBlockers(t) && d.id == id && ChasesTo(ById(facts), d, key)
  {
    var g, vs := ById(facts), Visits(HeldTasks(facts));
    PassFiles(facts, key, id);
    FiledMembers(g, vs, key, id, t);
    HeldTasksMembers(facts);
    VisitsMembers(HeldTasks(facts));
    assert t in UnderKey(MarkFacts(facts).roots, key, id) <==> t in multiset(UnderKey(MarkFacts(facts).roots, key, id));
    forall d | t in HeldTasks(facts) && d in DirectBlockers(t) && d.id == id && ChasesTo(g, d, key)
      ensures exists v :: v in vs && v.task == t && v.direct.id == id && ChasesTo(g, v.direct, key)
    {
      assert Visit(t, d) in vs;
    }
  }

  // ----- Which held tasks the diagram shows

  /** Task `a` is ready, and a direct blocker of it has id `b`. */
  ghost predicate HeldBy(g: Facts, a: string, b: string) {
    a in g && IsHeld(g[a]) && exists d :: d in DirectBlockers(g[a]) && d.id == b
  }

  ghost predicate HeldLine(g: Facts, p: seq<string>) {
    |p| >= 2 && forall i :: 0 <= i < |p| - 1 ==> HeldBy(g, p[i], p[i + 1])
  }

  /** From `a` up to `key` along blockers, through ready tasks only. */
  ghost predicate HeldThrough(g: Facts, a: string, key: string) {
    exists p :: HeldLine(g, p) && p[0] == a && p[|p| - 1] == key
  }

  /** Nothing in this pass stands above a root whose tasks have no cycle above them. */
  lemma RootRests(facts: seq<WorkFact>, key: string)
    requires UniqueIds(facts) && WellKeyed(ById(facts)) && HeldCycleFree(facts)
    requires key in MarkFacts(facts).roots
    ensures key in ById(facts) ==> !ById(facts)[key].Blocked()
    ensures MarkFacts(facts).roots[key].ref.id == key
  {
    hide MarkFacts, Terminal, BlockerAbove, DirectBlockers, GenuineRoot, AcyclicAbove, Visits;
    var g, roots := ById(facts), MarkFacts(facts).roots;
    MarkFactsSound(facts);
    SomethingHeld(g, roots, key);
    var id :| Holds(roots, key, id);
    HeldOnly(facts, key, id);
    ByIdMembers(facts);
    HeldExactly(facts, key, id);
    TerminalNotBlocked(g, id, key);
  }

  /** The first blocker on a line of held tasks chases to its end. */
  lemma {:induction false} LineChases(g: Facts, p: seq<string>, key: string) returns (d: BlockerRef)
    requires WellKeyed(g) && HeldLine(g, p) && p[|p| - 1] == key
    requires key in g ==> !g[key].Blocked()
    ensures p[0] in g && d in DirectBlockers(g[p[0]]) && d.id == p[1] && ChasesTo(g, d, key)
    decreases |p|
  {
    assert HeldBy(g, p[0], p[1]);
    d :| d in DirectBlockers(g[p[0]]) && d.id == p[1];
    if |p| == 2 {
      assert Terminal(g, d) && Reachable(g, d, d);
    } else {
      assert HeldLine(g, p[1..]);
      var next := LineChases(g, p[1..], key);
      var r: BlockerRef :| r.id == key && Terminal(g, r) && Reachable(g, next, r);
      AboveChild(g, p[1], next, r);
      assert d.isPlan ==> exists doc: nat :: d.id == PlanKey(doc);
      assert Reachable(g, d, r);
    }
  }

  /** With no cycle above a held task, the diagram of a root shows exactly the tasks that a line of
      ready tasks joins to it. */
  lemma DiagramShowsExactly(facts: seq<WorkFact>, key: string, id: string)
    requires UniqueIds(facts) && WellKeyed(ById(facts)) && HeldCycleFree(facts)
    requires key in MarkFacts(facts).roots
    ensures id in Ids(Diagram(MarkFacts(facts).roots[key])) <==> HeldThrough(ById(facts), id, key)
  {
    var g, root := ById(facts), MarkFacts(facts).roots[key];
    RootRests(facts, key);
    ShownExactly(root, id);
    if LeadsTo(root.children, key, id) {
      ShownHeld(facts, key, id);
    }
    if HeldThrough(g, id, key) {
      HeldShown(facts, key, id);
    }
  }

  function Backwards(p: seq<string>): (q: seq<string>)
    ensures |q| == |p| && forall i :: 0 <= i < |p| ==> q[i] == p[|p| - 1 - i]
  {
    seq(|p|, i requires 0 <= i < |p| => p[|p| - 1 - i])
  }

  lemma ShownHeld(facts: seq<WorkFact>, key: string, id: string)
    requires UniqueIds(facts) && WellKeyed(ById(facts)) && HeldCycleFree(facts)
    requires key in MarkFacts(facts).roots && LeadsTo(MarkFacts(facts).roots[key].children, key, id)
    ensures HeldThrough(ById(facts), id, key)
  {
    var g, children := ById(facts), MarkFacts(facts).roots[key].children;
    var p :| Line(children, p) && p[0] == key && p[|p| - 1] == id;
    var q := Backwards(p);
    forall i | 0 <= i < |q| - 1
      ensures HeldBy(g, q[i], q[i + 1])
    {
      assert FiledUnder(children, p[|p| - 2 - i], p[|p| - 2 - i + 1]);
      var k :| k in Under(children, q[i + 1]) && k.id == q[i];
      FiledExactly(facts, key, q[i + 1], k);
      ByIdMembers(facts);
    }
    assert HeldLine(g, q);
  }

  lemma HeldLineLong(g: Facts, p: seq<string>)
    requires HeldLine(g, p)
    ensures |p| >= 2
  {
  }

  lemma HeldLineFrom(g: Facts, p: seq<string>, k: nat)
    requires HeldLine(g, p) && k < |p| - 1
    ensures HeldLine(g, p[k..])
  {
    forall i | 0 <= i < |p[k..]| - 1
      ensures HeldBy(g, p[k..][i], p[k..][i + 1])
    {
      assert p[k..][i] == p[k + i] && p[k..][i + 1] == p[k + i + 1];
    }
  }

  lemma HeldShown(facts: seq<WorkFact>, key: string, id: string)
    requires UniqueIds(facts) && WellKeyed(ById(facts)) && HeldCycleFree(facts)
    requires key in MarkFacts(facts).roots && HeldThrough(ById(facts), id, key)
    ensures LeadsTo(MarkFacts(facts).roots[key].children, key, id)
  {
    var g, children := ById(facts), MarkFacts(facts).roots[key].children;
    hide MarkFacts, HeldBy, HeldLine, FiledUnder, Backwards, HeldCycleFree, UniqueIds, WellKeyed, ById;
    var p :| HeldLine(g, p) && p[0] == id && p[|p| - 1] == key;
    assert |p| >= 2 by { HeldLineLong(g, p); }
    var q := Backwards(p);
    forall i | 0 <= i < |q| - 1
      ensures FiledUnder(children, q[i], q[i + 1])
    {
      HeldLineFrom(g, p, |p| - 2 - i);
      LineFiled(facts, p[|p| - 2 - i..], key);
    }
    assert Line(children, q);
  }

  lemma LineFiled(facts: seq<WorkFact>, p: seq<string>, key: string)
    requires UniqueIds(facts) && WellKeyed(ById(facts)) && HeldCycleFree(facts)
    requires HeldLine(ById(facts), p) && p[|p| - 1] == key && key in MarkFacts(facts).roots
    ensures FiledUnder(MarkFacts(facts).roots[key].children, p[1], p[0])
  {
    hide MarkFacts, ChasesTo, HeldCycleFree, UniqueIds, WellKeyed;
    var g := ById(facts);
    RootRests(facts, key);
    var d := LineChases(g, p, key);
    assert HeldBy(g, p[0], p[1]);
    ByIdMembers(facts);
    FiledExactly(facts, key, p[1], g[p[0]]);
  }

  /** With no cycle above a held task, nothing is drawn that the root does not hold. */
  lemma ShownAreHeld(facts: seq<WorkFact>, key: string)
    requires UniqueIds(facts) && WellKeyed(ById(facts)) && HeldCycleFree(facts)
    requires key in MarkFacts(facts).roots
    ensures Ids(Diagram(MarkFacts(facts).roots[key])) <= MarkFacts(facts).roots[key].held.Keys
  {
    hide MarkFacts, HeldCycleFree, UniqueIds, WellKeyed, ById, Diagram, AcyclicAbove, Terminal, Ids;
    var g, roots := ById(facts), MarkFacts(facts).roots;
    forall id | id in Ids(Diagram(roots[key]))
      ensures Holds(roots, key, id)
    {
      DiagramShowsExactly(facts, key, id);
      RootRests(facts, key);
      var p :| HeldLine(g, p) && p[0] == id && p[|p| - 1] == key;
      assert HeldBy(g, p[0], p[1]);
      var d := LineChases(g, p, key);
      var r: BlockerRef :| r.id == key && Terminal(g, r) && Reachable(g, d, r);
      AboveChild(g, id, d, r);
      HeldFactCycleFree(facts, id);
      HeldExactly(facts, key, id);
    }
  }

  lemma HeldFactCycleFree(facts: seq<WorkFact>, id: string)
    requires HeldCycleFree(facts) && id in ById(facts) && IsHeld(ById(facts)[id])
    ensures AcyclicAbove(ById(facts), id)
  {
    ByIdMembers(facts);
  }

  /** If moreover every blocked task is ready, the diagram shows exactly the tasks its root holds. */
  lemma AllShownWhenReady(facts: seq<WorkFact>, key: string)
    requires UniqueIds(facts) && WellKeyed(ById(facts)) && HeldCycleFree(facts)
    requires forall f :: f in facts && f.Blocked() ==> IsHeld(f)
    requires key in MarkFacts(facts).roots
    ensures Ids(Diagram(MarkFacts(facts).roots[key])) == MarkFacts(facts).roots[key].held.Keys
  {
    var g, roots := ById(facts), MarkFacts(facts).roots;
    ByIdMembers(facts);
    assert forall id :: id in g && g[id].Blocked() ==> IsHeld(g[id]);
    hide MarkFacts, HeldCycleFree, UniqueIds, WellKeyed, ById, Diagram, AcyclicAbove, Terminal, Ids, IsHeld;
    ShownAreHeld(facts, key);
    forall id | Holds(roots, key, id)
      ensures id in Ids(Diagram(roots[key]))
    {
      HeldOnly(facts, key, id);
      HeldFactCycleFree(facts, id);
      HeldExactly(facts, key, id);
      var r: BlockerRef :| r.id == key && Terminal(g, r) && BlockerAbove(g, id, r);
      AboveIsHeldThrough(g, id, r);
      DiagramShowsExactly(facts, key, id);
    }
  }

  lemma AboveIsHeldThrough(g: Facts, id: string, r: BlockerRef)
    requires forall x :: x in g && g[x].Blocked() ==> IsHeld(g[x])
    requires BlockerAbove(g, id, r)
    ensures HeldThrough(g, id, r.id)
  {
    var mid :| (mid == id || WaitsOn(g, id, mid)) && mid in g && r in DirectBlockers(g[mid]);
    var p := [id];
    if mid != id {
      p :| PathBetween(g, p, id, mid);
    }
    var q := p + [r.id];
    forall i | 0 <= i < |q| - 1
      ensures HeldBy(g, q[i], q[i + 1])
    {
      if i < |p| - 1 {
        assert Edge(g, p[i], p[i + 1]);
      }
    }
    assert HeldLine(g, q);
  }

  // ----- The order of the facts cannot show

  lemma {:induction false} FiledSplit(g: Facts, a: seq<Visit>, b: seq<Visit>, key: string, id: string)
    ensures Filed(g, a + b, key, id) == Filed(g, a, key, id) + Filed(g, b, key, id)
    decreases |a|
  {
    if a == [] {
      assert a + b == b;
    } else {
      assert (a + b)[0] == a[0] && (a + b)[1..] == a[1..] + b;
      FiledSplit(g, a[1..], b, key, id);
    }
  }

  /** Each held task is filed as often as its own blockers say. */
  lemma {:induction false} FiledCount(g: Facts, held: seq<WorkFact>, key: string, id: string, t: WorkFact)
    requires UniqueIds(held)
    ensures Filed(g, Visits(held), key, id)[t] ==
      if t in held then Filed(g, VisitsOf(t, DirectBlockers(t)), key, id)[t] else 0
  {
    if held != [] {
      var own := VisitsOf(held[0], DirectBlockers(held[0]));
      assert held == [held[0]] + held[1..];
      FiledSplit(g, own, Visits(held[1..]), key, id);
      FiledCount(g, held[1..], key, id, t);
      FiledMembers(g, own, key, id, t);
      assert t == held[0] ==> t !in held[1..];
    }
  }

  /** With no cycle above a held task, the diagram of every root is the same for every order of the facts. */
  lemma DiagramOrderFree(a: seq<WorkFact>, b: seq<WorkFact>, key: string)
    requires multiset(a) == multiset(b) && UniqueIds(a) && UniqueIds(b) && WellKeyed(ById(a)) && HeldCycleFree(a)
    requires key in MarkFacts(a).roots
    ensures key in MarkFacts(b).roots
    ensures Diagram(MarkFacts(a).roots[key]) == Diagram(MarkFacts(b).roots[key])
  {
    hide MarkFacts, Diagram, Kids;
    MarkOrderFree(a, b);
    ByIdOrderFree(a, b);
    SameMembers(a, b);
    var ca, cb := MarkFacts(a).roots[key].children, MarkFacts(b).roots[key].children;
    forall id
      ensures Kids(ca, id) == Kids(cb, id)
    {
      KidsOrderFree(a, b, key, id);
    }
    RootRests(a, key);
    RootRests(b, key);
    SameDiagram(MarkFacts(a).roots[key], MarkFacts(b).roots[key]);
  }

  lemma KidsOrderFree(a: seq<WorkFact>, b: seq<WorkFact>, key: string, id: string)
    requires multiset(a) == multiset(b) && UniqueIds(a) && UniqueIds(b) && WellKeyed(ById(a)) && HeldCycleFree(a)
    requires key in MarkFacts(a).roots && key in MarkFacts(b).roots
    ensures Kids(MarkFacts(a).roots[key].children, id) == Kids(MarkFacts(b).roots[key].children, id)
  {
    hide MarkFacts, ChildLess, Visits, IsHeld, WellKeyed, Filed;
    ByIdOrderFree(a, b);
    SameMembers(a, b);
    PassFiles(a, key, id);
    PassFiles(b, key, id);
    HeldTasksMembers(a);
    HeldTasksMembers(b);
    HeldTasksUnique(a);
    HeldTasksUnique(b);
    var g, fa, fb := ById(a), Filed(ById(a), Visits(HeldTasks(a)), key, id), Filed(ById(a), Visits(HeldTasks(b)), key, id);
    forall t
      ensures fa[t] == fb[t]
    {
      FiledCount(g, HeldTasks(a), key, id, t);
      FiledCount(g, HeldTasks(b), key, id, t);
    }
    assert fa == fb;
    var ka, kb := UnderKey(MarkFacts(a).roots, key, id), UnderKey(MarkFacts(b).roots, key, id);
    FiledTotal(a, key, id);
    ChildLessOrders();
    SortCanonical(ChildLess, ka, kb);
  }

  lemma FiledTotal(facts: seq<WorkFact>, key: string, id: string)
    requires UniqueIds(facts) && WellKeyed(ById(facts)) && HeldCycleFree(facts)
    ensures Total(ChildLess, UnderKey(MarkFacts(facts).roots, key, id))
  {
    hide MarkFacts, WellKeyed, HeldCycleFree;
    var filed := UnderKey(MarkFacts(facts).roots, key, id);
    forall x, y | x in filed && y in filed
      ensures x == y || ChildLess(x, y) || ChildLess(y, x)
    {
      FiledExactly(facts, key, id, x);
      FiledExactly(facts, key, id, y);
      if x.id != y.id {
        LexTotal(x.id, y.id);
      }
    }
  }

  lemma SameDiagram(a: ConcernRoot, b: ConcernRoot)
    requires a.ref.id == b.ref.id && forall id :: Kids(a.children, id) == Kids(b.children, id)
    ensures Diagram(a) == Diagram(b)
  {
    SameDrawAll(a.children, b.children, Kids(a.children, a.ref.id), true, {a.ref.id});
  }

  lemma {:induction false} SameDraw(a: Children, b: Children, h: WorkFact, direct: bool, visited: set<string>)
    requires forall id :: Kids(a, id) == Kids(b, id)
    ensures Draw(a, h, direct, visited) == Draw(b, h, direct, visited)
    decreases a.Keys - visited, 0
  {
    if h.id !in visited && Kids(a, h.id) != [] {
      SameDrawAll(a, b, Kids(a, h.id), false, visited + {h.id});
    }
  }

  lemma {:induction false} SameDrawAll(a: Children, b: Children, hs: seq<WorkFact>, direct: bool, visited: set<string>)
    requires forall id :: Kids(a, id) == Kids(b, id)
    ensures DrawAll(a, hs, direct, visited) == DrawAll(b, hs, direct, visited)
    decreases a.Keys - visited, |hs|
  {
    if hs != [] {
      SameDraw(a, b, hs[0], direct, visited);
      SameDrawAll(a, b, hs[1..], direct, Draw(a, hs[0], direct, visited).visited);
    }
  }

  // ----- A held task the diagram leaves out

  /** Ready task h waits on m, which is in progress and waits on r. */
  function Ready(): WorkFact {
    BlockedBy("h", [TaskRef("m", "", "ready")])
  }

  function InProgress(): WorkFact {
    BlockedBy("m", [TaskRef("r", "", "ready")]).(state := "in_progress")
  }

  lemma StalledBlockers()
    ensures DirectBlockers(Ready()) == [RefTo("m")] && DirectBlockers(InProgress()) == [RefTo("r")]
    ensures IsHeld(Ready()) && !IsHeld(InProgress())
  {
    assert DirectBlockers(Ready()) == [RefTo("m")];
    assert DirectBlockers(InProgress()) == [RefTo("r")];
  }

  lemma StalledFacts()
    ensures ById([Ready(), InProgress()]) == map["h" := Ready(), "m" := InProgress()]
    ensures HeldTasks([Ready(), InProgress()]) == [Ready()]
    ensures Visits([Ready()]) == [Visit(Ready(), RefTo("m"))]
  {
    hide ById, HeldTasks, Visits, IsHeld, DirectBlockers;
    var h, m := Ready(), InProgress();
    StalledBlockers();
    Nothing();
    OneMore([], h);
    OneMore([] + [h], m);
    OneVisited(h, []);
    assert [] + [h] + [m] == [h, m] && [h] + [] == [h];
  }

  lemma StalledChase()
    ensures Chase(map["h" := Ready(), "m" := InProgress()], RefTo("m"), {"h"}, Pass(map[], 0)).roots == [RefTo("r")]
  {
    StalledBlockers();
    var g, v := map["h" := Ready(), "m" := InProgress()], {"h"} + {"m"};
    calc {
      ChaseAll(g, [RefTo("r")], v, [], Pass(map[], 1));
      ChaseAll(g, [], v, AddNew([], [RefTo("r")]), Pass(map[], 2));
      Chased([RefTo("r")], Pass(map[], 2));
    }
  }

  /** The root r holds the ready task h, and its diagram is empty. */
  lemma HeldButNotShown()
    ensures var roots := MarkFacts([Ready(), InProgress()]).roots;
      IsHeld(Ready()) && Holds(roots, "r", "h") && Diagram(roots["r"]) == []
  {
    hide ById, HeldTasks, Visits, IsHeld, Chase;
    StalledBlockers();
    StalledFacts();
    StalledChase();
    var v := Visit(Ready(), RefTo("m"));
    var roots := HoldAll(map[], [RefTo("r")], v);
    assert roots == Hold(map[], RefTo("r"), v);
    assert MarkFacts([Ready(), InProgress()]).roots == roots;
    assert Under(roots["r"].children, "r") == [];
  }

  // ----- The code itself

  /** The pen `chainNode` draws with: what is filed, and the tasks drawn so far. */
  class ChainPen {
    const children: Children
    var visited: set<string>

    constructor (children: Children, top: string)
      ensures this.children == children && visited == {top}
    {
      this.children := children;
      visited := {top};
    }

    method ChainNode(h: WorkFact, direct: bool) returns (n: Node)
      modifies this
      ensures Drawn([n], visited) == Draw(children, h, direct, old(visited))
      decreases children.Keys - visited, 0
    {
      n := Node(h.id, if direct then Some(h.priority) else None, []);
      if h.id in visited {
        assert visited + {h.id} == visited;
        return;
      }
      visited := visited + {h.id};
      var kids := Kids(children, h.id);
      if |kids| == 0 {
        return;
      }
      assert h.id in children;
      var parts := ChainNodes(kids, false);
      n := n.(kids := parts);
    }

    method ChainNodes(hs: seq<WorkFact>, direct: bool) returns (parts: seq<Node>)
      modifies this
      ensures Drawn(parts, visited) == DrawAll(children, hs, direct, old(visited))
      decreases children.Keys - visited, |hs| + 1
    {
      hide Draw;
      parts := [];
      for i := 0 to |hs|
        invariant old(visited) <= visited
        invariant var rest := DrawAll(children, hs[i..], direct, visited);
          DrawAll(children, hs, direct, old(visited)) == Drawn(parts + rest.nodes, rest.visited)
      {
        assert hs[i..][0] == hs[i] && hs[i..][1..] == hs[i + 1..];
        assert children.Keys - visited == old(children.Keys - visited) || children.Keys - visited < old(children.Keys - visited);
        var part := ChainNode(hs[i], direct);
        parts := parts + [part];
      }
    }
  }

  method RootChain(root: ConcernRoot) returns (parts: seq<Node>)
    ensures parts == Diagram(root)
  {
    var pen := new ChainPen(root.children, root.ref.id);
    parts := pen.ChainNodes(Kids(root.children, root.ref.id), true);
  }
}
