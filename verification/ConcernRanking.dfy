/** `rankConcernRoots`: mark every ready-and-blocked task under the roots its blockers chase to,
    then score and order the roots. */
module ConcernRanking {
  import opened Text
  import opened Sorting
  import opened BlockerGraph
  import opened RootCauses

  // ----- Input

  /** Later facts overwrite earlier ones of the same id, as filling a map in a loop does. */
  function ById(facts: seq<WorkFact>): Facts {
    if facts == [] then map[]
    else ById(facts[..|facts| - 1])[facts[|facts| - 1].id := facts[|facts| - 1]]
  }

  ghost predicate UniqueIds(facts: seq<WorkFact>) {
    forall i, j :: 0 <= i < j < |facts| ==> facts[i].id != facts[j].id
  }

  function DisplayState(state: string, blocked: bool): string {
    if state == "ready" && blocked then "blocked" else state
  }

  /** Ready and blocked. (No stored state is spelled "blocked"; see `DisplayState`.) */
  predicate IsHeld(f: WorkFact) {
    DisplayState(f.state, f.Blocked()) == "blocked"
  }

  function HeldTasks(facts: seq<WorkFact>): seq<WorkFact> {
    if facts == [] then []
    else HeldTasks(facts[..|facts| - 1]) + (if IsHeld(facts[|facts| - 1]) then [facts[|facts| - 1]] else [])
  }

  lemma {:induction false} ByIdMembers(facts: seq<WorkFact>)
    ensures forall id :: id in ById(facts) ==> ById(facts)[id] in facts && ById(facts)[id].id == id
    ensures forall f :: f in facts ==> f.id in ById(facts)
    ensures UniqueIds(facts) ==> forall f :: f in facts ==> ById(facts)[f.id] == f
  {
    if facts != [] {
      var init, last := facts[..|facts| - 1], facts[|facts| - 1];
      ByIdMembers(init);
      assert facts == init + [last];
    }
  }

  lemma {:induction false} HeldTasksMembers(facts: seq<WorkFact>)
    ensures forall f :: f in HeldTasks(facts) <==> f in facts && IsHeld(f)
  {
    if facts != [] {
      var init, last := facts[..|facts| - 1], facts[|facts| - 1];
      HeldTasksMembers(init);
      assert facts == init + [last];
    }
  }

  /** The facts of a pass do not depend on the order they arrive in. */
  lemma ByIdOrderFree(a: seq<WorkFact>, b: seq<WorkFact>)
    requires multiset(a) == multiset(b) && UniqueIds(a) && UniqueIds(b)
    ensures ById(a) == ById(b)
  {
    SameMembers(a, b);
    ByIdMembers(a);
    ByIdMembers(b);
  }

  // ----- Marking

  /** The held tasks filed under the direct blocker they were chased through. */
  type Children = map<string, seq<WorkFact>>

  datatype ConcernRoot = ConcernRoot(ref: BlockerRef, held: map<string, WorkFact>, children: Children)

  type Roots = map<string, ConcernRoot>

  /** One top-level chase: a held task and one of its direct blockers. */
  datatype Visit = Visit(task: WorkFact, direct: BlockerRef)

  datatype Marked = Marked(pass: Pass, roots: Roots)

  function Under(children: Children, id: string): seq<WorkFact> {
    if id in children then children[id] else []
  }

  function AddChild(root: ConcernRoot, v: Visit): ConcernRoot {
    root.(held := root.held[v.task.id := v.task],
          children := root.children[v.direct.id := Under(root.children, v.direct.id) + [v.task]])
  }

  function Hold(roots: Roots, r: BlockerRef, v: Visit): Roots {
    roots[r.id := AddChild(if r.id in roots then roots[r.id] else ConcernRoot(r, map[], map[]), v)]
  }

  function HoldAll(roots: Roots, rs: seq<BlockerRef>, v: Visit): Roots
    decreases |rs|
  {
    if rs == [] then roots
    else HoldAll(Hold(roots, rs[0], v), rs[1..], v)
  }

  function VisitsOf(h: WorkFact, directs: seq<BlockerRef>): seq<Visit> {
    seq(|directs|, i requires 0 <= i < |directs| => Visit(h, directs[i]))
  }

  function Visits(held: seq<WorkFact>): seq<Visit> {
    if held == [] then [] else VisitsOf(held[0], DirectBlockers(held[0])) + Visits(held[1..])
  }

  function Mark(g: Facts, vs: seq<Visit>, m: Marked): Marked {
    if vs == [] then m
    else
      var c := Chase(g, vs[0].direct, {vs[0].task.id}, m.pass);
      Mark(g, vs[1..], Marked(c.pass, HoldAll(m.roots, c.roots, vs[0])))
  }

  function MarkFacts(facts: seq<WorkFact>): Marked {
    Mark(ById(facts), Visits(HeldTasks(facts)), Marked(Pass(map[], 0), map[]))
  }

  lemma {:induction false} MarkSplit(g: Facts, a: seq<Visit>, b: seq<Visit>, m: Marked)
    ensures Mark(g, a + b, m) == Mark(g, b, Mark(g, a, m))
    decreases |a|
  {
    if a == [] {
      assert a + b == b;
    } else {
      assert (a + b)[0] == a[0] && (a + b)[1..] == a[1..] + b;
      var c := Chase(g, a[0].direct, {a[0].task.id}, m.pass);
      MarkSplit(g, a[1..], b, Marked(c.pass, HoldAll(m.roots, c.roots, a[0])));
    }
  }

  lemma {:induction false} VisitsMembers(held: seq<WorkFact>)
    ensures forall v :: v in Visits(held) <==> v.task in held && v.direct in DirectBlockers(v.task)
  {
    if held != [] {
      VisitsMembers(held[1..]);
      var ds := DirectBlockers(held[0]);
      assert forall i :: 0 <= i < |ds| ==> VisitsOf(held[0], ds)[i] == Visit(held[0], ds[i]);
    }
  }

  /** Task `id` is recorded under root `key`. */
  predicate Holds(roots: Roots, key: string, id: string) {
    key in roots && id in roots[key].held
  }

  lemma {:induction false} HoldAllHolds(roots: Roots, rs: seq<BlockerRef>, v: Visit)
    ensures forall key, id :: Holds(HoldAll(roots, rs, v), key, id) <==>
      Holds(roots, key, id) || (id == v.task.id && HasId(rs, key))
    ensures forall key :: key in HoldAll(roots, rs, v) <==> key in roots || HasId(rs, key)
    decreases |rs|
  {
    if rs != [] {
      HoldAllHolds(Hold(roots, rs[0], v), rs[1..], v);
      forall key
        ensures HasId(rs, key) <==> key == rs[0].id || HasId(rs[1..], key)
      {
        if HasId(rs[1..], key) {
          var i :| 0 <= i < |rs[1..]| && rs[1..][i].id == key;
          assert rs[i + 1].id == key;
        }
      }
    }
  }

  /** Recorded roots are filed under their own id, hold somebody, and file tasks under their own id. */
  ghost predicate TidyRoots(g: Facts, roots: Roots) {
    forall key :: key in roots ==>
      && roots[key].ref.id == key
      && roots[key].held != map[]
      && GenuineRoot(g, roots[key].ref)
      && forall id :: id in roots[key].held ==> id in g && roots[key].held[id] == g[id]
  }

  lemma {:induction false} HoldAllTidy(g: Facts, roots: Roots, rs: seq<BlockerRef>, v: Visit)
    requires TidyRoots(g, roots) && v.task.id in g && g[v.task.id] == v.task
    requires forall r :: r in rs ==> GenuineRoot(g, r)
    ensures TidyRoots(g, HoldAll(roots, rs, v))
    decreases |rs|
  {
    if rs != [] {
      var next := Hold(roots, rs[0], v);
      assert v.task.id in next[rs[0].id].held;
      HoldAllTidy(g, next, rs[1..], v);
    }
  }

  ghost predicate VisitsOk(g: Facts, vs: seq<Visit>) {
    forall v :: v in vs ==> v.task.id in g && g[v.task.id] == v.task && v.direct in DirectBlockers(v.task)
  }

  lemma VisitAncestors(g: Facts, v: Visit)
    requires VisitsOk(g, [v])
    ensures Ancestors(g, {v.task.id}, v.direct)
  {
    assert v in [v];
    if !v.direct.isPlan {
      assert Edge(g, v.task.id, v.direct.id);
      EdgeWaits(g, v.task.id, v.direct.id);
    }
  }

  /** Why a root holds a task: some blocker with the root's id stands above the task. */
  ghost predicate Explained(g: Facts, roots: Roots) {
    forall key, id :: Holds(roots, key, id) ==> exists r: BlockerRef :: r.id == key && BlockerAbove(g, id, r) && GenuineRoot(g, r)
  }

  /** On any graph: marking keeps the memo's promise, files only genuine roots, only under tasks they
      stand above, and leaves no visited task without a root. */
  lemma {:induction false} MarkSound(g: Facts, vs: seq<Visit>, m: Marked)
    requires WellKeyed(g) && VisitsOk(g, vs)
    requires PassInvariant(g, m.pass.memo) && TidyRoots(g, m.roots) && Explained(g, m.roots)
    ensures var out := Mark(g, vs, m);
      && PassInvariant(g, out.pass.memo) && TidyRoots(g, out.roots) && Explained(g, out.roots)
      && (forall key, id :: Holds(m.roots, key, id) ==> Holds(out.roots, key, id))
      && (forall v :: v in vs ==> exists key :: Holds(out.roots, key, v.task.id))
    decreases |vs|
  {
    if vs != [] {
      var v := vs[0];
      assert v in vs;
      VisitAncestors(g, v);
      ChaseKeepsInvariant(g, v.direct, {v.task.id}, m.pass);
      ChaseSound(g, v.direct, {v.task.id}, m.pass);
      var c := Chase(g, v.direct, {v.task.id}, m.pass);
      HoldAllTidy(g, m.roots, c.roots, v);
      HoldAllHolds(m.roots, c.roots, v);
      var roots := HoldAll(m.roots, c.roots, v);
      forall key, id | Holds(roots, key, id)
        ensures exists r: BlockerRef :: r.id == key && BlockerAbove(g, id, r) && GenuineRoot(g, r)
      {
        if !Holds(m.roots, key, id) {
          var i :| 0 <= i < |c.roots| && c.roots[i].id == key;
          assert c.roots[i] in c.roots;
          AboveChild(g, id, v.direct, c.roots[i]);
        }
      }
      MarkSound(g, vs[1..], Marked(c.pass, roots));
      assert HasId(c.roots, c.roots[0].id);
      assert Holds(roots, c.roots[0].id, v.task.id);
    }
  }

  /** A root id the acyclic reading assigns to a task: a terminal blocker above it has that id. */
  ghost predicate TerminalAbove(g: Facts, id: string, key: string) {
    exists r: BlockerRef :: r.id == key && Terminal(g, r) && BlockerAbove(g, id, r)
  }

  /** For a task no cycle is reachable from, marking records it under exactly the terminal blockers
      above it through the visited edges, whatever the other tasks' graphs look like. */
  lemma {:induction false} MarkExact(g: Facts, vs: seq<Visit>, m: Marked, id: string)
    requires WellKeyed(g) && VisitsOk(g, vs) && PassInvariant(g, m.pass.memo)
    requires AcyclicAbove(g, id)
    ensures forall key :: Holds(Mark(g, vs, m).roots, key, id) <==>
      Holds(m.roots, key, id) ||
      exists v, r: BlockerRef :: v in vs && v.task.id == id && r.id == key && Terminal(g, r) && Reachable(g, v.direct, r)
    decreases |vs|
  {
    if vs != [] {
      var v := vs[0];
      assert v in vs;
      VisitAncestors(g, v);
      ChaseKeepsInvariant(g, v.direct, {v.task.id}, m.pass);
      var c := Chase(g, v.direct, {v.task.id}, m.pass);
      if v.task.id == id {
        CycleFreeChild(g, id, v.direct);
        ExactWhenCycleFree(g, v.direct, {id}, m.pass);
      }
      HoldAllHolds(m.roots, c.roots, v);
      var m' := Marked(c.pass, HoldAll(m.roots, c.roots, v));
      MarkExact(g, vs[1..], m', id);
      forall key
        ensures Holds(Mark(g, vs, m).roots, key, id) <==>
          Holds(m.roots, key, id) ||
          exists u, r: BlockerRef :: u in vs && u.task.id == id && r.id == key && Terminal(g, r) && Reachable(g, u.direct, r)
      {
        assert forall u :: u in vs <==> u == v || u in vs[1..];
      }
    }
  }

  lemma FactsVisitsOk(facts: seq<WorkFact>)
    requires UniqueIds(facts)
    ensures VisitsOk(ById(facts), Visits(HeldTasks(facts)))
    ensures PassInvariant(ById(facts), map[])
  {
    ByIdMembers(facts);
    HeldTasksMembers(facts);
    VisitsMembers(HeldTasks(facts));
  }

  /** On any graph, every root is genuine and explained, and the memo's promise survives the pass. */
  lemma MarkFactsSound(facts: seq<WorkFact>)
    requires UniqueIds(facts) && WellKeyed(ById(facts))
    ensures PassInvariant(ById(facts), MarkFacts(facts).pass.memo)
    ensures TidyRoots(ById(facts), MarkFacts(facts).roots)
    ensures Explained(ById(facts), MarkFacts(facts).roots)
    ensures forall v :: v in Visits(HeldTasks(facts)) ==> exists key :: Holds(MarkFacts(facts).roots, key, v.task.id)
  {
    FactsVisitsOk(facts);
    MarkSound(ById(facts), Visits(HeldTasks(facts)), Marked(Pass(map[], 0), map[]));
  }

  /** On any graph, every ready-and-blocked task ends up under some root. */
  lemma EveryHeldTaskHasRoot(facts: seq<WorkFact>, f: WorkFact)
    requires UniqueIds(facts) && WellKeyed(ById(facts))
    requires f in facts && IsHeld(f) && f.Blocked()
    ensures exists key :: Holds(MarkFacts(facts).roots, key, f.id)
  {
    MarkFactsSound(facts);
    HeldTasksMembers(facts);
    VisitsMembers(HeldTasks(facts));
    assert Visit(f, DirectBlockers(f)[0]) in Visits(HeldTasks(facts));
  }

  lemma {:induction false} MarkOnlyVisited(g: Facts, vs: seq<Visit>, m: Marked)
    ensures forall key, id :: Holds(Mark(g, vs, m).roots, key, id) ==>
      Holds(m.roots, key, id) || exists v :: v in vs && v.task.id == id
    decreases |vs|
  {
    if vs != [] {
      var c := Chase(g, vs[0].direct, {vs[0].task.id}, m.pass);
      HoldAllHolds(m.roots, c.roots, vs[0]);
      MarkOnlyVisited(g, vs[1..], Marked(c.pass, HoldAll(m.roots, c.roots, vs[0])));
      assert vs[0] in vs;
    }
  }

  /** A task with no reachable cycle is held by exactly the terminal blockers above it. */
  lemma HeldExactly(facts: seq<WorkFact>, key: string, id: string)
    requires UniqueIds(facts) && WellKeyed(ById(facts)) && AcyclicAbove(ById(facts), id)
    ensures Holds(MarkFacts(facts).roots, key, id) <==>
      id in ById(facts) && IsHeld(ById(facts)[id]) && TerminalAbove(ById(facts), id, key)
  {
    FactsVisitsOk(facts);
    var g, vs, m0 := ById(facts), Visits(HeldTasks(facts)), Marked(Pass(map[], 0), map[]);
    MarkExact(g, vs, m0, id);
    ByIdMembers(facts);
    HeldTasksMembers(facts);
    VisitsMembers(HeldTasks(facts));
    if Holds(MarkFacts(facts).roots, key, id) {
      var v, r: BlockerRef :| v in vs && v.task.id == id && r.id == key && Terminal(g, r) && Reachable(g, v.direct, r);
      AboveChild(g, id, v.direct, r);
    }
    if id in g && IsHeld(g[id]) && TerminalAbove(g, id, key) {
      var r: BlockerRef :| r.id == key && Terminal(g, r) && BlockerAbove(g, id, r);
      var next := AboveThroughChild(g, id, r);
      assert Visit(g[id], next) in vs;
    }
  }

  lemma {:induction false} MarkMore(g: Facts, vs: seq<Visit>, m: Marked)
    ensures forall key, id :: Holds(m.roots, key, id) ==> Holds(Mark(g, vs, m).roots, key, id)
    ensures forall id :: id in m.pass.memo ==> id in Mark(g, vs, m).pass.memo && Mark(g, vs, m).pass.memo[id] == m.pass.memo[id]
    decreases |vs|
  {
    if vs != [] {
      var c := Chase(g, vs[0].direct, {vs[0].task.id}, m.pass);
      ChaseCost(g, vs[0].direct, {vs[0].task.id}, m.pass);
      HoldAllHolds(m.roots, c.roots, vs[0]);
      MarkMore(g, vs[1..], Marked(c.pass, HoldAll(m.roots, c.roots, vs[0])));
    }
  }

  /** A visit below which a cycle can be reached files its task under a root that is itself blocked. */
  lemma {:induction false} MarkShowsCycle(g: Facts, vs: seq<Visit>, m: Marked, v: Visit) returns (key: string)
    requires WellKeyed(g) && VisitsOk(g, vs) && PassInvariant(g, m.pass.memo)
    requires v in vs && !CycleFree(g, v.direct)
    ensures Holds(Mark(g, vs, m).roots, key, v.task.id) && key in g && g[key].Blocked()
    decreases |vs|
  {
    var first := vs[0];
    assert first in vs;
    VisitAncestors(g, first);
    var c := Chase(g, first.direct, {first.task.id}, m.pass);
    var next := Marked(c.pass, HoldAll(m.roots, c.roots, first));
    if first == v {
      TerminalExactlyWhenCycleFree(g, v.direct, {v.task.id}, m.pass);
      var r :| r in c.roots && !Terminal(g, r);
      key := r.id;
      var i :| 0 <= i < |c.roots| && c.roots[i] == r;
      assert HasId(c.roots, key);
      HoldAllHolds(m.roots, c.roots, v);
      MarkMore(g, vs[1..], next);
    } else {
      ChaseKeepsInvariant(g, first.direct, {first.task.id}, m.pass);
      key := MarkShowsCycle(g, vs[1..], next, v);
    }
  }

  lemma TerminalNotBlocked(g: Facts, id: string, key: string)
    requires WellKeyed(g) && TerminalAbove(g, id, key)
    ensures key in g ==> !g[key].Blocked()
  {
    var r: BlockerRef :| r.id == key && Terminal(g, r) && BlockerAbove(g, id, r);
    assert r.isPlan ==> exists doc: nat :: r.id == PlanKey(doc);
  }

  /** The roots recorded for a held task are exactly the terminal blockers above it if and only if no
      cycle can be reached from it. */
  lemma HeldExactlyWhenCycleFree(facts: seq<WorkFact>, f: WorkFact)
    requires UniqueIds(facts) && WellKeyed(ById(facts)) && f in facts && IsHeld(f)
    ensures (forall key :: Holds(MarkFacts(facts).roots, key, f.id) <==> TerminalAbove(ById(facts), f.id, key))
      <==> AcyclicAbove(ById(facts), f.id)
  {
    var g, vs, roots := ById(facts), Visits(HeldTasks(facts)), MarkFacts(facts).roots;
    ByIdMembers(facts);
    if AcyclicAbove(g, f.id) {
      forall key
        ensures Holds(roots, key, f.id) <==> TerminalAbove(g, f.id, key)
      {
        HeldExactly(facts, key, f.id);
      }
    } else {
      var next := CyclicChild(g, f.id);
      FactsVisitsOk(facts);
      HeldTasksMembers(facts);
      VisitsMembers(HeldTasks(facts));
      assert Visit(f, next) in vs;
      var key := MarkShowsCycle(g, vs, Marked(Pass(map[], 0), map[]), Visit(f, next));
      if TerminalAbove(g, f.id, key) { TerminalNotBlocked(g, f.id, key); }
      assert Holds(roots, key, f.id) && !TerminalAbove(g, f.id, key);
    }
  }

  // ----- A terminal root that one pass drops

  function RefTo(id: string): BlockerRef {
    BlockerRef(false, id, "", "ready")
  }

  function BlockedBy(id: string, openBlockers: seq<TaskRef>): WorkFact {
    WorkFact(id, "p", "high", "ready", "", "", openBlockers, [], None)
  }

  function TaskA(): WorkFact {
    BlockedBy("a", [TaskRef("x", "", "ready"), TaskRef("s", "", "ready")])
  }

  function TaskX(): WorkFact {
    BlockedBy("x", [TaskRef("a", "", "ready")])
  }

  function TaskH(): WorkFact {
    BlockedBy("h", [TaskRef("x", "", "ready")])
  }

  /** Task a waits on x and on s, which is outside the facts; x waits on a, and h waits on x. */
  function Knot(): seq<WorkFact> {
    [TaskA(), TaskX(), TaskH()]
  }

  function KnotFacts(): Facts {
    map["a" := TaskA(), "x" := TaskX(), "h" := TaskH()]
  }

  lemma KnotBlockers()
    ensures DirectBlockers(TaskA()) == [RefTo("x"), RefTo("s")]
    ensures DirectBlockers(TaskX()) == [RefTo("a")] && DirectBlockers(TaskH()) == [RefTo("x")]
  {
    assert DirectBlockers(TaskA()) == [RefTo("x"), RefTo("s")];
    assert DirectBlockers(TaskX()) == [RefTo("a")];
    assert DirectBlockers(TaskH()) == [RefTo("x")];
  }

  function KnotVisits(): seq<Visit> {
    [Visit(TaskA(), RefTo("x")), Visit(TaskA(), RefTo("s")), Visit(TaskX(), RefTo("a")), Visit(TaskH(), RefTo("x"))]
  }

  lemma OneMore(init: seq<WorkFact>, f: WorkFact)
    ensures ById(init + [f]) == ById(init)[f.id := f]
    ensures HeldTasks(init + [f]) == HeldTasks(init) + (if IsHeld(f) then [f] else [])
  {
    assert (init + [f])[..|init|] == init;
  }

  lemma OneVisited(f: WorkFact, rest: seq<WorkFact>)
    ensures Visits([f] + rest) == VisitsOf(f, DirectBlockers(f)) + Visits(rest)
  {
    assert ([f] + rest)[1..] == rest;
  }

  lemma Nothing()
    ensures ById([]) == map[] && HeldTasks([]) == [] && Visits([]) == []
  {
  }

  lemma BlockedIsHeld(id: string, openBlockers: seq<TaskRef>)
    requires openBlockers != []
    ensures IsHeld(BlockedBy(id, openBlockers))
  {
  }

  lemma KnotFactsHeld()
    ensures ById(Knot()) == KnotFacts() && HeldTasks(Knot()) == Knot()
  {
    hide ById, HeldTasks, IsHeld;
    Nothing();
    BlockedIsHeld("a", TaskA().openBlockers);
    BlockedIsHeld("x", TaskX().openBlockers);
    BlockedIsHeld("h", TaskH().openBlockers);
    OneMore([], TaskA());
    OneMore([] + [TaskA()], TaskX());
    OneMore([] + [TaskA()] + [TaskX()], TaskH());
    assert [] + [TaskA()] + [TaskX()] + [TaskH()] == Knot();
  }

  lemma KnotVisited()
    ensures Visits(Knot()) == KnotVisits()
  {
    hide Visits, DirectBlockers;
    KnotBlockers();
    Nothing();
    OneVisited(TaskA(), [TaskX()] + ([TaskH()] + []));
    OneVisited(TaskX(), [TaskH()] + []);
    OneVisited(TaskH(), []);
    assert [TaskA()] + ([TaskX()] + ([TaskH()] + [])) == Knot();
  }

  lemma KnotPass()
    ensures ById(Knot()) == KnotFacts()
    ensures MarkFacts(Knot()) == Mark(KnotFacts(), KnotVisits(), Marked(Pass(map[], 0), map[]))
  {
    hide Mark, Visits, HeldTasks, ById, Knot, KnotVisits, KnotFacts;
    KnotFactsHeld();
    KnotVisited();
  }

  /** Chasing a's own edge to x leaves [a] as x's memo entry. */
  lemma KnotPins()
    ensures Chase(KnotFacts(), RefTo("x"), {"a"}, Pass(map[], 0)).pass.memo == map["x" := [RefTo("a")]]
  {
    KnotBlockers();
    var va := {"a"} + {"x"};
    calc {
      ChaseAll(KnotFacts(), [RefTo("a")], va, [], Pass(map[], 1));
      ChaseAll(KnotFacts(), [], va, AddNew([], [RefTo("a")]), Pass(map[], 2));
      Chased([RefTo("a")], Pass(map[], 2));
    }
  }

  /** Chasing x's own edge to a, after that, leaves [x, s] as a's. */
  lemma KnotPinsMore(p: Pass)
    requires p.memo == map["x" := [RefTo("a")]]
    ensures var memo := Chase(KnotFacts(), RefTo("a"), {"x"}, p).pass.memo; "a" in memo && memo["a"] == [RefTo("x"), RefTo("s")]
  {
    KnotBlockers();
    var va, p1 := {"x"} + {"a"}, p.(calls := p.calls + 1);
    var p2, p3 := p1.(calls := p.calls + 2), p1.(calls := p.calls + 3);
    calc {
      ChaseAll(KnotFacts(), [RefTo("x"), RefTo("s")], va, [], p1);
      ChaseAll(KnotFacts(), [RefTo("s")], va, AddNew([], [RefTo("x")]), p2);
      ChaseAll(KnotFacts(), [RefTo("s")], va, [RefTo("x")], p2);
      ChaseAll(KnotFacts(), [], va, AddNew([RefTo("x")], [RefTo("s")]), p3);
      Chased(AddNew([RefTo("x")], [RefTo("s")]), p3);
      Chased([RefTo("x"), RefTo("s")], p3);
    }
  }

  /** The pass before h is visited: x's entry is pinned, and a's too. */
  lemma KnotBefore()
    ensures var memo := Mark(KnotFacts(), KnotVisits()[..3], Marked(Pass(map[], 0), map[])).pass.memo;
      && "x" in memo && memo["x"] == [RefTo("a")]
      && "a" in memo && memo["a"] == [RefTo("x"), RefTo("s")]
  {
    var g, m0 := KnotFacts(), Marked(Pass(map[], 0), map[]);
    var c1 := Chase(g, RefTo("x"), {"a"}, m0.pass);
    KnotPins();
    var c2 := Chase(g, RefTo("s"), {"a"}, c1.pass);
    assert c2.pass.memo == c1.pass.memo;
    KnotPinsMore(c2.pass);
    ChaseCost(g, RefTo("a"), {"x"}, c2.pass);
    hide Chase, HoldAll, Mark;
    var a, b, c := Visit(TaskA(), RefTo("x")), Visit(TaskA(), RefTo("s")), Visit(TaskX(), RefTo("a"));
    assert KnotVisits()[..3] == [a, b, c] && [a, b, c][1..] == [b, c] && [b, c][1..] == [c] && [c][1..] == [];
    var m1 := MarkFirst(g, [a, b, c], m0);
    var m2 := MarkFirst(g, [b, c], m1);
    var m3 := MarkFirst(g, [c], m2);
    MarkNone(g, m3);
  }

  lemma KnotUnheld()
    ensures !Holds(Mark(KnotFacts(), KnotVisits()[..3], Marked(Pass(map[], 0), map[])).roots, "s", "h")
  {
    MarkOnlyVisited(KnotFacts(), KnotVisits()[..3], Marked(Pass(map[], 0), map[]));
  }

  lemma MarkFirst(g: Facts, vs: seq<Visit>, m: Marked) returns (next: Marked)
    requires vs != []
    ensures next.pass == Chase(g, vs[0].direct, {vs[0].task.id}, m.pass).pass
    ensures next.roots == HoldAll(m.roots, Chase(g, vs[0].direct, {vs[0].task.id}, m.pass).roots, vs[0])
    ensures Mark(g, vs, m) == Mark(g, vs[1..], next)
  {
    var c := Chase(g, vs[0].direct, {vs[0].task.id}, m.pass);
    next := Marked(c.pass, HoldAll(m.roots, c.roots, vs[0]));
  }

  /** One pass over the knot: s is a terminal blocker above h, and h is not recorded under it. The memo entry
      of a, a member of the cycle, names s, which is on no cycle. */
  lemma CycleDropsRoot()
    ensures TerminalAbove(ById(Knot()), "h", "s") && !Holds(MarkFacts(Knot()).roots, "s", "h")
    ensures var memo := MarkFacts(Knot()).pass.memo;
      "a" in memo && RefTo("s") in memo["a"] && OnCycle(ById(Knot()), "a") && !OnCycle(ById(Knot()), "s")
  {
    KnotBefore();
    KnotUnheld();
    var v := Visit(TaskH(), RefTo("x"));
    assert KnotVisits()[..3] + [v] == KnotVisits();
    hide Mark, MarkFacts, TerminalAbove, OnCycle, ById, Knot, KnotVisits, KnotFacts;
    KnotPass();
    KnotAbove();
    var m0 := Marked(Pass(map[], 0), map[]);
    MarkSplit(KnotFacts(), KnotVisits()[..3], [v], m0);
    KnotLast(Mark(KnotFacts(), KnotVisits()[..3], m0));
  }

  /** With x's entry pinned, visiting h adds no root but a. */
  lemma KnotLast(m: Marked)
    requires "x" in m.pass.memo && m.pass.memo["x"] == [RefTo("a")] && !Holds(m.roots, "s", "h")
    requires "a" in m.pass.memo && m.pass.memo["a"] == [RefTo("x"), RefTo("s")]
    ensures var last := Mark(KnotFacts(), [Visit(TaskH(), RefTo("x"))], m);
      && !Holds(last.roots, "s", "h") && "a" in last.pass.memo && RefTo("s") in last.pass.memo["a"]
  {
    var g, v := KnotFacts(), Visit(TaskH(), RefTo("x"));
    assert Chase(g, RefTo("x"), {"h"}, m.pass).roots == [RefTo("a")];
    assert m.pass.memo["a"][1] == RefTo("s");
    hide Chase, Mark, HoldAll;
    MarkMore(g, [v], m);
    var last := MarkFirst(g, [v], m);
    assert [v][1..] == [];
    MarkNone(g, last);
    HoldAllHolds(m.roots, [RefTo("a")], v);
  }

  lemma MarkNone(g: Facts, m: Marked)
    ensures Mark(g, [], m) == m
  {
  }

  lemma KnotEdges()
    ensures Edge(KnotFacts(), "h", "x") && Edge(KnotFacts(), "x", "a") && Edge(KnotFacts(), "a", "x")
    ensures RefTo("s") in DirectBlockers(TaskA()) && "s" !in KnotFacts()
    ensures KnotFacts().Keys == {"a", "x", "h"} && KnotFacts()["a"] == TaskA()
  {
    KnotBlockers();
    hide DirectBlockers;
    assert RefTo("x") in DirectBlockers(TaskH()) && RefTo("a") in DirectBlockers(TaskX());
    assert DirectBlockers(TaskA())[0] == RefTo("x") && DirectBlockers(TaskA())[1] == RefTo("s");
  }

  lemma KnotAbove()
    ensures TerminalAbove(KnotFacts(), "h", "s") && OnCycle(KnotFacts(), "a") && !OnCycle(KnotFacts(), "s")
  {
    var g := KnotFacts();
    KnotEdges();
    hide DirectBlockers, Edge, KnotFacts, WaitsOn;
    EdgeWaits(g, "h", "x");
    EdgeWaits(g, "x", "a");
    EdgeWaits(g, "a", "x");
    WaitsTransitive(g, "h", "x", "a");
    WaitsTransitive(g, "a", "x", "a");
    assert BlockerAbove(g, "h", RefTo("s"));
    if OnCycle(g, "s") { var next := WaitsFirstEdge(g, "s", "s"); }
  }

  // ----- Cost of the whole pass

  function SumBlockers(held: seq<WorkFact>): nat {
    if held == [] then 0 else |DirectBlockers(held[0])| + SumBlockers(held[1..])
  }

  lemma {:induction false} MarkCost(g: Facts, vs: seq<Visit>, m: Marked)
    ensures Extends(g, {}, m.pass, Mark(g, vs, m).pass, |vs|)
    decreases |vs|
  {
    if vs == [] {
      assert m.pass.memo.Keys - m.pass.memo.Keys == {};
    } else {
      var c := Chase(g, vs[0].direct, {vs[0].task.id}, m.pass);
      ChaseCost(g, vs[0].direct, {vs[0].task.id}, m.pass);
      assert Extends(g, {}, m.pass, c.pass, 1);
      var m' := Marked(c.pass, HoldAll(m.roots, c.roots, vs[0]));
      MarkCost(g, vs[1..], m');
      ExtendsThen(g, {}, m.pass, c.pass, Mark(g, vs, m).pass, 1, |vs| - 1);
    }
  }

  lemma {:induction false} VisitsCount(held: seq<WorkFact>)
    ensures |Visits(held)| == SumBlockers(held)
  {
    if held != [] { VisitsCount(held[1..]); }
  }

  lemma {:induction false} SumBlockersIsEdges(g: Facts, held: seq<WorkFact>, ids: set<string>)
    requires UniqueIds(held) && forall f :: f in held ==> f.id in g && g[f.id] == f
    requires ids == set f | f in held :: f.id
    ensures SumBlockers(held) == EdgesOut(g, ids)
    decreases |held|
  {
    if held != [] {
      var rest := held[1..];
      var restIds := set f | f in rest :: f.id;
      SumBlockersIsEdges(g, rest, restIds);
      forall f | f in rest
        ensures f.id != held[0].id
      {
        var i :| 1 <= i < |held| && held[i] == f;
      }
      assert ids == restIds + {held[0].id} by {
        assert held[0] in held;
        forall x | x in ids ensures x in restIds + {held[0].id} {
          var f :| f in held && f.id == x;
          assert f == held[0] || f in rest;
        }
      }
      EdgesOutRemove(g, ids, held[0].id);
      assert ids - {held[0].id} == restIds;
    }
  }

  lemma {:induction false} HeldTasksUnique(facts: seq<WorkFact>)
    requires UniqueIds(facts)
    ensures UniqueIds(HeldTasks(facts))
  {
    if facts != [] {
      var init, last := facts[..|facts| - 1], facts[|facts| - 1];
      HeldTasksUnique(init);
      HeldTasksMembers(init);
      assert forall f :: f in init ==> f.id != last.id;
    }
  }

  function BlockedIds(g: Facts): set<string> {
    set id | id in g && g[id].Blocked()
  }

  lemma HeldEdges(facts: seq<WorkFact>)
    requires UniqueIds(facts)
    ensures SumBlockers(HeldTasks(facts)) <= EdgesOut(ById(facts), BlockedIds(ById(facts)))
  {
    var g, held := ById(facts), HeldTasks(facts);
    ByIdMembers(facts);
    HeldTasksMembers(facts);
    HeldTasksUnique(facts);
    var ids := set f | f in held :: f.id;
    SumBlockersIsEdges(g, held, ids);
    var blocked := ids * BlockedIds(g);
    assert blocked + (ids - blocked) == ids;
    EdgesOutUnion(g, blocked, ids - blocked);
    NoEdgesOut(g, ids - blocked);
    EdgesOutMonotone(g, blocked, BlockedIds(g));
  }

  lemma {:induction false} NoEdgesOut(g: Facts, ids: set<string>)
    requires ids !! BlockedIds(g)
    ensures EdgesOut(g, ids) == 0
    decreases ids
  {
    if ids != {} {
      var id :| id in ids;
      EdgesOutRemove(g, ids, id);
      assert id !in BlockedIds(g);
      NoEdgesOut(g, ids - {id});
    }
  }

  /** The walk is linear: one pass calls rootCauses at most twice per blocker edge of a blocked task. */
  lemma CallsLinear(facts: seq<WorkFact>)
    requires UniqueIds(facts)
    ensures MarkFacts(facts).pass.calls <= 2 * EdgesOut(ById(facts), BlockedIds(ById(facts)))
  {
    var g, vs, p0 := ById(facts), Visits(HeldTasks(facts)), Pass(map[], 0);
    var p := Mark(g, vs, Marked(p0, map[])).pass;
    MarkCost(g, vs, Marked(p0, map[]));
    VisitsCount(HeldTasks(facts));
    HeldEdges(facts);
    var expanded := p.memo.Keys - p0.memo.Keys;
    assert expanded <= BlockedIds(g);
    EdgesOutMonotone(g, expanded, BlockedIds(g));
  }

  // ----- Scoring

  function PriorityRank(p: string): nat {
    if p == "critical" then 0
    else if p == "high" then 1
    else if p == "medium" then 2
    else if p == "low" then 3
    else 4
  }

  function BlockedSince(h: WorkFact, now: int): int {
    match h.stateEventAt
    case None => now
    case Some(at) => at
  }

  /** `best` is the most urgent priority among the held tasks. */
  ghost predicate IsBest(held: map<string, WorkFact>, best: nat) {
    && best <= 4
    && (forall id :: id in held ==> best <= PriorityRank(held[id].priority))
    && (best == 4 || exists id :: id in held && PriorityRank(held[id].priority) == best)
  }

  /** `at` is the earliest blocked-since among the held tasks, never later than now. */
  ghost predicate IsOldest(held: map<string, WorkFact>, now: int, at: int) {
    && at <= now
    && (forall id :: id in held ==> at <= BlockedSince(held[id], now))
    && (at == now || exists id :: id in held && BlockedSince(held[id], now) == at)
  }

  datatype Stat = Stat(root: ConcernRoot, best: nat, fanOut: nat, oldestAt: int)

  datatype RankedRoot = RankedRoot(root: ConcernRoot, fanOut: nat, oldestAt: int)

  predicate Outranks(a: Stat, b: Stat) {
    || a.best < b.best
    || (a.best == b.best && a.fanOut > b.fanOut)
    || (a.best == b.best && a.fanOut == b.fanOut && a.oldestAt < b.oldestAt)
    || (a.best == b.best && a.fanOut == b.fanOut && a.oldestAt == b.oldestAt && LexLess(a.root.ref.id, b.root.ref.id))
  }

  lemma OutranksOrders()
    ensures Transitive(Outranks) && Asymmetric(Outranks)
  {
    forall x, y, z | Outranks(x, y) && Outranks(y, z)
      ensures Outranks(x, z)
    {
      if LexLess(x.root.ref.id, y.root.ref.id) && LexLess(y.root.ref.id, z.root.ref.id) {
        LexTransitive(x.root.ref.id, y.root.ref.id, z.root.ref.id);
      }
    }
    forall x, y | Outranks(x, y)
      ensures !Outranks(y, x)
    {
      if LexLess(x.root.ref.id, y.root.ref.id) {
        LexAsymmetric(x.root.ref.id, y.root.ref.id);
      }
    }
  }

  ghost predicate IsStat(roots: Roots, now: int, s: Stat) {
    && s.root.ref.id in roots && roots[s.root.ref.id] == s.root
    && IsBest(s.root.held, s.best)
    && s.fanOut == |s.root.held|
    && IsOldest(s.root.held, now, s.oldestAt)
  }

  ghost predicate Scored(stats: seq<Stat>, key: string) {
    exists s :: s in stats && s.root.ref.id == key
  }

  /** `stats` scores every root, highest signal first. */
  ghost predicate IsRanking(roots: Roots, now: int, stats: seq<Stat>) {
    && (forall s :: s in stats ==> IsStat(roots, now, s))
    && (forall key {:trigger Scored(stats, key)} :: key in roots ==> Scored(stats, key))
    && Sorted(Outranks, stats)
  }

  // ----- The order as its readers know it

  predicate HoldsPriority(r: RankedRoot, priority: string) {
    exists id :: id in r.root.held && r.root.held[id].priority == priority
  }

  /** More tasks held, then the older, then the smaller id. */
  predicate Heavier(a: RankedRoot, b: RankedRoot) {
    || |a.root.held| > |b.root.held|
    || (|a.root.held| == |b.root.held| && a.oldestAt < b.oldestAt)
    || (|a.root.held| == |b.root.held| && a.oldestAt == b.oldestAt && LexLess(a.root.ref.id, b.root.ref.id))
  }

  /** A root with a critical task comes before every root without one; among roots without, one with a high
      task, and so on; two roots with the same most urgent priority go by weight. */
  predicate SignalOrder(a: RankedRoot, b: RankedRoot) {
    if HoldsPriority(a, "critical") || HoldsPriority(b, "critical") then
      HoldsPriority(a, "critical") && (HoldsPriority(b, "critical") ==> Heavier(a, b))
    else if HoldsPriority(a, "high") || HoldsPriority(b, "high") then
      HoldsPriority(a, "high") && (HoldsPriority(b, "high") ==> Heavier(a, b))
    else if HoldsPriority(a, "medium") || HoldsPriority(b, "medium") then
      HoldsPriority(a, "medium") && (HoldsPriority(b, "medium") ==> Heavier(a, b))
    else if HoldsPriority(a, "low") || HoldsPriority(b, "low") then
      HoldsPriority(a, "low") && (HoldsPriority(b, "low") ==> Heavier(a, b))
    else Heavier(a, b)
  }

  /** The age counts from the earliest state event among the held tasks, and from now where there is none
      earlier. */
  ghost predicate AgeTold(r: RankedRoot, now: int) {
    && r.fanOut == |r.root.held| && r.oldestAt <= now
    && (forall id :: id in r.root.held && r.root.held[id].stateEventAt.Some? ==> r.oldestAt <= r.root.held[id].stateEventAt.value)
    && (r.oldestAt == now || exists id :: id in r.root.held && r.root.held[id].stateEventAt == Some(r.oldestAt))
  }

  predicate Told(s: Stat, r: RankedRoot) {
    r == RankedRoot(s.root, s.fanOut, s.oldestAt)
  }

  lemma BestTold(roots: Roots, now: int, s: Stat, r: RankedRoot)
    requires IsStat(roots, now, s) && Told(s, r)
    ensures s.best == if HoldsPriority(r, "critical") then 0 else if HoldsPriority(r, "high") then 1
                      else if HoldsPriority(r, "medium") then 2 else if HoldsPriority(r, "low") then 3 else 4
  {
    forall p
      ensures HoldsPriority(r, p) ==> s.best <= PriorityRank(p)
    {
    }
    if s.best < 4 {
      var id :| id in s.root.held && PriorityRank(s.root.held[id].priority) == s.best;
      assert HoldsPriority(r, s.root.held[id].priority);
    }
  }

  lemma OutranksTold(roots: Roots, now: int, a: Stat, b: Stat, x: RankedRoot, y: RankedRoot)
    requires IsStat(roots, now, a) && IsStat(roots, now, b) && Told(a, x) && Told(b, y) && Outranks(a, b)
    ensures SignalOrder(x, y)
  {
    BestTold(roots, now, a, x);
    BestTold(roots, now, b, y);
    hide HoldsPriority, IsBest, IsOldest;
  }

  lemma AgeIsTold(roots: Roots, now: int, s: Stat, r: RankedRoot)
    requires IsStat(roots, now, s) && Told(s, r)
    ensures AgeTold(r, now)
  {
  }

  /** Any ranking of any roots: every earlier root has the stronger signal. */
  lemma RankedBySignal(roots: Roots, now: int, stats: seq<Stat>)
    requires IsRanking(roots, now, stats)
    ensures forall i :: 0 <= i < |stats| ==> AgeTold(Exposed(stats)[i], now)
    ensures forall i, j :: 0 <= i < j < |stats| ==> SignalOrder(Exposed(stats)[i], Exposed(stats)[j])
  {
    hide IsStat, Outranks, SignalOrder, AgeTold;
    forall i | 0 <= i < |stats|
      ensures AgeTold(Exposed(stats)[i], now)
    {
      AgeIsTold(roots, now, stats[i], Exposed(stats)[i]);
    }
    forall i, j | 0 <= i < j < |stats|
      ensures SignalOrder(Exposed(stats)[i], Exposed(stats)[j])
    {
      OutranksTold(roots, now, stats[i], stats[j], Exposed(stats)[i], Exposed(stats)[j]);
    }
  }

  function Exposed(stats: seq<Stat>): seq<RankedRoot> {
    seq(|stats|, i requires 0 <= i < |stats| => RankedRoot(stats[i].root, stats[i].fanOut, stats[i].oldestAt))
  }

  /** The same roots holding the same tasks; a root's own title and state may be told differently. */
  ghost predicate SameRoots(a: Roots, b: Roots) {
    a.Keys == b.Keys && forall key :: key in a ==>
      a[key].ref.id == key && b[key].ref.id == key && a[key].held == b[key].held
  }

  ghost predicate SameRanking(a: seq<RankedRoot>, b: seq<RankedRoot>) {
    |a| == |b| && forall i :: 0 <= i < |a| ==>
      && a[i].root.ref.id == b[i].root.ref.id && a[i].root.held == b[i].root.held
      && a[i].fanOut == b[i].fanOut && a[i].oldestAt == b[i].oldestAt
  }

  function Rebase(s: Stat, roots: Roots): Stat {
    if s.root.ref.id in roots then s.(root := roots[s.root.ref.id]) else s
  }

  function RebaseAll(s: seq<Stat>, roots: Roots): seq<Stat> {
    seq(|s|, i requires 0 <= i < |s| => Rebase(s[i], roots))
  }

  lemma RebaseStat(a: Roots, b: Roots, now: int, s: Stat)
    requires SameRoots(a, b) && IsStat(a, now, s)
    ensures IsStat(b, now, Rebase(s, b))
    ensures Rebase(s, b).root.ref.id == s.root.ref.id && Rebase(s, b).root.held == s.root.held
  {
  }

  lemma RebaseKeepsRanking(a: Roots, b: Roots, now: int, s: seq<Stat>)
    requires SameRoots(a, b) && IsRanking(a, now, s)
    ensures IsRanking(b, now, RebaseAll(s, b)) && SameRanking(Exposed(s), Exposed(RebaseAll(s, b)))
  {
    hide IsStat;
    var u := RebaseAll(s, b);
    forall i | 0 <= i < |s|
      ensures IsStat(b, now, u[i]) && u[i].root.ref.id == s[i].root.ref.id && u[i].root.held == s[i].root.held
    {
      assert s[i] in s;
      RebaseStat(a, b, now, s[i]);
    }
    forall x | x in u
      ensures IsStat(b, now, x)
    {
      var i :| 0 <= i < |u| && u[i] == x;
    }
    forall key | key in b
      ensures Scored(u, key)
    {
      assert Scored(s, key);
      var y :| y in s && y.root.ref.id == key;
      var i :| 0 <= i < |s| && s[i] == y;
      assert u[i] in u;
    }
    forall i, j | 0 <= i < j < |u|
      ensures Outranks(u[i], u[j])
    {
      assert Outranks(s[i], s[j]);
    }
  }

  lemma SameStat(roots: Roots, now: int, x: Stat, y: Stat)
    requires IsStat(roots, now, x) && IsStat(roots, now, y) && x.root.ref.id == y.root.ref.id
    ensures x.root.ref.id in roots && x == y
  {
    hide PriorityRank, BlockedSince;
  }

  lemma RankingMembers(roots: Roots, now: int, s: seq<Stat>, t: seq<Stat>)
    requires IsRanking(roots, now, s) && IsRanking(roots, now, t)
    ensures forall x :: x in s ==> x in t
  {
    hide IsStat, Outranks;
    forall x | x in s
      ensures x in t
    {
      SameStat(roots, now, x, x);
      assert Scored(t, x.root.ref.id);
      var y :| y in t && y.root.ref.id == x.root.ref.id;
      SameStat(roots, now, x, y);
    }
  }

  /** The ranking is a function of which tasks each root holds: map iteration order cannot show. */
  lemma RankingDetermined(a: Roots, b: Roots, now: int, s: seq<Stat>, t: seq<Stat>)
    requires SameRoots(a, b) && IsRanking(a, now, s) && IsRanking(b, now, t)
    ensures SameRanking(Exposed(s), Exposed(t))
  {
    var u := RebaseAll(s, b);
    RebaseKeepsRanking(a, b, now, s);
    RankingMembers(b, now, u, t);
    RankingMembers(b, now, t, u);
    OutranksOrders();
    SortedUnique(Outranks, u, t);
  }

  lemma HeldOnly(facts: seq<WorkFact>, key: string, id: string)
    requires UniqueIds(facts)
    requires Holds(MarkFacts(facts).roots, key, id)
    ensures id in ById(facts) && ById(facts)[id] in facts && IsHeld(ById(facts)[id])
  {
    FactsVisitsOk(facts);
    ByIdMembers(facts);
    HeldTasksMembers(facts);
    VisitsMembers(HeldTasks(facts));
    MarkOnlyVisited(ById(facts), Visits(HeldTasks(facts)), Marked(Pass(map[], 0), map[]));
  }

  /** No cycle stands above any ready-and-blocked task of the pass. */
  ghost predicate HeldCycleFree(facts: seq<WorkFact>) {
    forall f :: f in facts && IsHeld(f) ==> AcyclicAbove(ById(facts), f.id)
  }

  lemma HoldsOrderFree(a: seq<WorkFact>, b: seq<WorkFact>, key: string, id: string)
    requires multiset(a) == multiset(b) && UniqueIds(a) && UniqueIds(b) && WellKeyed(ById(a)) && HeldCycleFree(a)
    ensures Holds(MarkFacts(a).roots, key, id) ==> Holds(MarkFacts(b).roots, key, id)
  {
    ByIdOrderFree(a, b);
    if Holds(MarkFacts(a).roots, key, id) {
      HeldOnly(a, key, id);
      assert ById(a)[id].id == id by { ByIdMembers(a); }
      HeldExactly(a, key, id);
      HeldExactly(b, key, id);
    }
  }

  lemma MarkOrderFree(a: seq<WorkFact>, b: seq<WorkFact>)
    requires multiset(a) == multiset(b) && UniqueIds(a) && UniqueIds(b) && WellKeyed(ById(a)) && HeldCycleFree(a)
    ensures SameRoots(MarkFacts(a).roots, MarkFacts(b).roots)
  {
    ByIdOrderFree(a, b);
    SameMembers(a, b);
    var ra, rb := MarkFacts(a).roots, MarkFacts(b).roots;
    MarkFactsSound(a);
    MarkFactsSound(b);
    forall key, id
      ensures Holds(ra, key, id) <==> Holds(rb, key, id)
    {
      HoldsOrderFree(a, b, key, id);
      HoldsOrderFree(b, a, key, id);
    }
    HoldsDetermines(ById(a), ra, rb);
  }

  lemma HoldsDetermines(g: Facts, ra: Roots, rb: Roots)
    requires TidyRoots(g, ra) && TidyRoots(g, rb)
    requires forall key, id :: Holds(ra, key, id) <==> Holds(rb, key, id)
    ensures SameRoots(ra, rb)
  {
    forall key
      ensures key in ra <==> key in rb
    {
      if key in ra { SomethingHeld(g, ra, key); }
      if key in rb { SomethingHeld(g, rb, key); }
    }
    assert ra.Keys == rb.Keys;
    forall key | key in ra
      ensures ra[key].held == rb[key].held
    {
      SameHeld(g, ra, rb, key);
    }
  }

  lemma SomethingHeld(g: Facts, roots: Roots, key: string)
    requires TidyRoots(g, roots) && key in roots
    ensures exists id :: Holds(roots, key, id)
  {
    var id :| id in roots[key].held;
    assert Holds(roots, key, id);
  }

  lemma SameHeld(g: Facts, ra: Roots, rb: Roots, key: string)
    requires TidyRoots(g, ra) && TidyRoots(g, rb) && key in ra && key in rb
    requires forall id :: Holds(ra, key, id) <==> Holds(rb, key, id)
    ensures ra[key].held == rb[key].held
  {
    forall id
      ensures id in ra[key].held <==> id in rb[key].held
    {
      assert Holds(ra, key, id) <==> Holds(rb, key, id);
    }
  }

  /** With unique ids and no cycle above a held task, the whole ranking is the same for every order of
      the input facts. */
  lemma RankingOrderFree(a: seq<WorkFact>, b: seq<WorkFact>, now: int, s: seq<Stat>, t: seq<Stat>)
    requires multiset(a) == multiset(b) && UniqueIds(a) && UniqueIds(b) && WellKeyed(ById(a)) && HeldCycleFree(a)
    requires IsRanking(MarkFacts(a).roots, now, s) && IsRanking(MarkFacts(b).roots, now, t)
    ensures SameRanking(Exposed(s), Exposed(t))
  {
    MarkOrderFree(a, b);
    RankingDetermined(MarkFacts(a).roots, MarkFacts(b).roots, now, s, t);
  }

  // ----- The code itself

  method FactsById(facts: seq<WorkFact>) returns (g: Facts)
    ensures g == ById(facts)
  {
    g := map[];
    for i := 0 to |facts|
      invariant g == ById(facts[..i])
    {
      assert facts[..i + 1][..i] == facts[..i];
      g := g[facts[i].id := facts[i]];
    }
    assert facts[..|facts|] == facts;
  }

  /** Ready with something open in front of it; a stored "blocked" would be shown as it is. */
  method ListHeld(facts: seq<WorkFact>) returns (held: seq<WorkFact>)
    ensures held == HeldTasks(facts)
    ensures forall f :: f in held <==>
      f in facts && (f.state == "blocked" || (f.state == "ready" && (f.openBlockers != [] || f.blockingPlans != [])))
  {
    HeldTasksMembers(facts);
    assert forall f :: IsHeld(f) <==> f.state == "blocked" || (f.state == "ready" && (f.openBlockers != [] || f.blockingPlans != []));
    held := [];
    for i := 0 to |facts|
      invariant held == HeldTasks(facts[..i])
    {
      assert facts[..i + 1][..i] == facts[..i];
      if DisplayState(facts[i].state, facts[i].Blocked()) == "blocked" {
        held := held + [facts[i]];
      }
    }
    assert facts[..|facts|] == facts;
  }

  /** Every root of one chase holds the task, and files it under the direct blocker chased. */
  method HoldUnder(roots: Roots, rs: seq<BlockerRef>, h: WorkFact, direct: BlockerRef) returns (out: Roots)
    ensures out == HoldAll(roots, rs, Visit(h, direct))
  {
    ghost var v := Visit(h, direct);
    out := roots;
    for k := 0 to |rs|
      invariant HoldAll(roots, rs, v) == HoldAll(out, rs[k..], v)
    {
      assert rs[k..][0] == rs[k] && rs[k..][1..] == rs[k + 1..];
      ghost var before := out;
      if rs[k].id !in out {
        out := out[rs[k].id := ConcernRoot(rs[k], map[], map[])];
      }
      var r := out[rs[k].id];
      r := r.(held := r.held[h.id := h]);
      r := r.(children := r.children[direct.id := Under(r.children, direct.id) + [h]]);
      out := out[rs[k].id := r];
      assert out == Hold(before, rs[k], v);
    }
  }

  /** Chases one held task's direct blockers; the path is reset to the task itself for each of them. */
  method MarkTask(pass: ChasePass, h: WorkFact, roots: Roots) returns (out: Roots)
    modifies pass
    ensures Marked(pass.State(), out) ==
      Mark(pass.facts, VisitsOf(h, DirectBlockers(h)), Marked(old(pass.State()), roots))
  {
    var directs := ListDirectBlockers(h);
    ghost var vs := VisitsOf(h, directs);
    out := roots;
    assert vs[0..] == vs;
    for j := 0 to |directs|
      invariant Mark(pass.facts, vs, Marked(old(pass.State()), roots)) ==
        Mark(pass.facts, vs[j..], Marked(pass.State(), out))
    {
      assert vs[j..][0] == Visit(h, directs[j]) && vs[j..][1..] == vs[j + 1..];
      pass.visited := {h.id};
      var rs := pass.RootCauses(directs[j]);
      out := HoldUnder(out, rs, h, directs[j]);
    }
  }

  method MarkRoots(g: Facts, held: seq<WorkFact>) returns (roots: Roots, calls: nat)
    ensures var m := Mark(g, Visits(held), Marked(Pass(map[], 0), map[]));
      roots == m.roots && calls == m.pass.calls
  {
    ghost var start := Marked(Pass(map[], 0), map[]);
    var pass := new ChasePass(g);
    roots := map[];
    for i := 0 to |held|
      invariant Mark(g, Visits(held), start) == Mark(g, Visits(held[i..]), Marked(pass.State(), roots))
    {
      assert held[i..][0] == held[i] && held[i..][1..] == held[i + 1..];
      MarkSplit(g, VisitsOf(held[i], DirectBlockers(held[i])), Visits(held[i + 1..]), Marked(pass.State(), roots));
      roots := MarkTask(pass, held[i], roots);
    }
    calls := pass.calls;
  }

  /** `best` is the lowest rank among the tasks seen, held by `urgent`, or the lowest rank there is. */
  ghost predicate BestSoFar(held: map<string, WorkFact>, seen: set<string>, best: nat, urgent: string) {
    && seen <= held.Keys && best <= 4
    && (forall id :: id in seen ==> best <= PriorityRank(held[id].priority))
    && (best == 4 || (urgent in seen && PriorityRank(held[urgent].priority) == best))
  }

  ghost predicate OldestSoFar(held: map<string, WorkFact>, now: int, seen: set<string>, oldest: int, earliest: string) {
    && seen <= held.Keys && oldest <= now
    && (forall id :: id in seen ==> oldest <= BlockedSince(held[id], now))
    && (oldest == now || (earliest in seen && BlockedSince(held[earliest], now) == oldest))
  }

  method ScoreRoot(root: ConcernRoot, now: int) returns (s: Stat)
    ensures s.root == root && s.fanOut == |root.held|
    ensures IsBest(root.held, s.best) && IsOldest(root.held, now, s.oldestAt)
  {
    var best, oldest := PriorityRank(""), now;
    ghost var urgent: string, earliest: string := "", "";
    assert BestSoFar(root.held, {}, best, urgent) && OldestSoFar(root.held, now, {}, oldest, earliest);
    hide BestSoFar, OldestSoFar, IsBest, IsOldest, PriorityRank, BlockedSince;
    var todo := root.held.Keys;
    ghost var seen: set<string> := {};
    while todo != {}
      invariant todo <= root.held.Keys && seen == root.held.Keys - todo
      invariant BestSoFar(root.held, seen, best, urgent) && OldestSoFar(root.held, now, seen, oldest, earliest)
      decreases todo
    {
      var id :| id in todo;
      var h := root.held[id];
      todo, seen := todo - {id}, seen + {id};
      if PriorityRank(h.priority) < best {
        best, urgent := PriorityRank(h.priority), id;
      }
      if BlockedSince(h, now) < oldest {
        oldest, earliest := BlockedSince(h, now), id;
      }
    }
    return Stat(root, best, |root.held|, oldest);
  }

  lemma StatsConnected(roots: Roots, now: int, stats: seq<Stat>)
    requires forall s :: s in stats ==> IsStat(roots, now, s)
    requires forall i, j :: 0 <= i < j < |stats| ==> stats[i].root.ref.id != stats[j].root.ref.id
    ensures Connected(Outranks, stats)
  {
    forall i, j | 0 <= i < j < |stats|
      ensures Outranks(stats[i], stats[j]) || Outranks(stats[j], stats[i])
    {
      LexTotal(stats[i].root.ref.id, stats[j].root.ref.id);
    }
  }

  /** The roots are scored in whatever order the map yields them, then sorted. */
  method ScoreRoots(roots: Roots, now: int) returns (stats: seq<Stat>)
    requires forall key :: key in roots ==> roots[key].ref.id == key
    ensures IsRanking(roots, now, stats)
  {
    stats := [];
    var todo := roots.Keys;
    while todo != {}
      invariant todo <= roots.Keys
      invariant forall s :: s in stats ==> IsStat(roots, now, s) && s.root.ref.id !in todo
      invariant forall key {:trigger Scored(stats, key)} :: key in roots && key !in todo ==> Scored(stats, key)
      invariant forall i, j :: 0 <= i < j < |stats| ==> stats[i].root.ref.id != stats[j].root.ref.id
      decreases todo
    {
      var key :| key in todo;
      todo := todo - {key};
      var s := ScoreRoot(roots[key], now);
      ghost var before := stats;
      stats := stats + [s];
      assert s in stats && forall x :: x in before ==> x in stats;
      forall k | k in roots && k !in todo
        ensures Scored(stats, k)
      {
        assert k == key || Scored(before, k);
      }
    }
    ghost var scored := stats;
    stats := Sort(Outranks, stats);
    StatsConnected(roots, now, scored);
    OutranksOrders();
    SortSorts(Outranks, scored);
    SortPermutes(Outranks, scored);
    SameMembers(scored, stats);
    forall key | key in roots
      ensures Scored(stats, key)
    {
      assert Scored(scored, key);
    }
  }

  lemma NothingHeld(facts: seq<WorkFact>, now: int)
    requires HeldTasks(facts) == []
    ensures MarkFacts(facts) == Marked(Pass(map[], 0), map[]) && IsRanking(map[], now, [])
  {
  }

  lemma RootsKeyed(facts: seq<WorkFact>)
    requires UniqueIds(facts) && WellKeyed(ById(facts))
    ensures var roots := MarkFacts(facts).roots; forall key :: key in roots ==> roots[key].ref.id == key
  {
    MarkFactsSound(facts);
  }

  method RankConcernRoots(facts: seq<WorkFact>, now: int) returns (ranked: seq<RankedRoot>, calls: nat)
    requires UniqueIds(facts) && WellKeyed(ById(facts))
    ensures calls == MarkFacts(facts).pass.calls
    ensures exists stats :: IsRanking(MarkFacts(facts).roots, now, stats) && ranked == Exposed(stats)
    ensures forall i :: 0 <= i < |ranked| ==> AgeTold(ranked[i], now)
    ensures forall i, j :: 0 <= i < j < |ranked| ==> SignalOrder(ranked[i], ranked[j])
  {
    hide Mark, Visits, IsRanking, HeldTasks, ById, SignalOrder, AgeTold;
    var g := FactsById(facts);
    var held := ListHeld(facts);
    if |held| == 0 {
      NothingHeld(facts, now);
      assert Exposed([]) == [];
      return [], 0;
    }
    RootsKeyed(facts);
    var roots;
    roots, calls := MarkRoots(g, held);
    var stats := ScoreRoots(roots, now);
    RankedBySignal(roots, now, stats);
    ranked := [];
    for i := 0 to |stats|
      invariant ranked == Exposed(stats)[..i]
    {
      ranked := ranked + [RankedRoot(stats[i].root, stats[i].fanOut, stats[i].oldestAt)];
    }
  }
}
