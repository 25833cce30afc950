/** The facts the cockpit ranks on, and the blocked-by graph they spell out. */
module BlockerGraph {
  import opened Text

  /** One direct blocker edge: an open blocker task, or an unfinished plan. */
  datatype BlockerRef = BlockerRef(isPlan: bool, id: string, title: string, state: string)

  datatype TaskRef = TaskRef(id: string, title: string, state: string)

  datatype PlanDoc = PlanDoc(id: nat, title: string, status: string)

  datatype WorkFact = WorkFact(
    id: string, project: string, priority: string, state: string,
    assignee: string, createdBy: string,
    openBlockers: seq<TaskRef>, blockingPlans: seq<PlanDoc>,
    stateEventAt: Option<int>)
  {
    predicate Blocked() {
      |openBlockers| > 0 || |blockingPlans| > 0
    }
  }

  /** `factsByID`: the facts of one pass, keyed by task id. */
  type Facts = map<string, WorkFact>

  function PlanKey(doc: nat): string {
    "plan:" + Decimal(doc)
  }

  function TaskBlocker(t: TaskRef): BlockerRef {
    BlockerRef(false, t.id, t.title, t.state)
  }

  function PlanBlocker(p: PlanDoc): BlockerRef {
    BlockerRef(true, PlanKey(p.id), p.title, p.status)
  }

  /** Open blockers first, then blocking plans. */
  function DirectBlockers(f: WorkFact): (out: seq<BlockerRef>)
    ensures |out| > 0 <==> f.Blocked()
  {
    seq(|f.openBlockers|, i requires 0 <= i < |f.openBlockers| => TaskBlocker(f.openBlockers[i])) +
    seq(|f.blockingPlans|, i requires 0 <= i < |f.blockingPlans| => PlanBlocker(f.blockingPlans[i]))
  }

  method ListDirectBlockers(f: WorkFact) returns (out: seq<BlockerRef>)
    ensures out == DirectBlockers(f)
  {
    out := [];
    for i := 0 to |f.openBlockers|
      invariant out == DirectBlockers(f)[..i]
    {
      out := out + [TaskBlocker(f.openBlockers[i])];
    }
    for i := 0 to |f.blockingPlans|
      invariant out == DirectBlockers(f)[..|f.openBlockers| + i]
    {
      out := out + [PlanBlocker(f.blockingPlans[i])];
    }
  }

  /** Each open blocker as it is, then each plan under its key; nothing else. */
  lemma DirectBlockersTold(f: WorkFact)
    ensures var out, n := DirectBlockers(f), |f.openBlockers|;
      && |out| == n + |f.blockingPlans|
      && (forall i :: 0 <= i < n ==>
          var t := f.openBlockers[i]; out[i] == BlockerRef(false, t.id, t.title, t.state))
      && (forall i :: 0 <= i < |f.blockingPlans| ==>
          var p := f.blockingPlans[i]; out[n + i] == BlockerRef(true, "plan:" + Decimal(p.id), p.title, p.status))
  {
  }

  /** Plan keys have a form no task id takes. */
  ghost predicate WellKeyed(g: Facts) {
    forall id, doc: nat :: id in g ==> id != PlanKey(doc)
  }

  /** Nothing chases past this blocker: a plan, a task outside the facts, or an unblocked task. */
  predicate Terminal(g: Facts, r: BlockerRef) {
    r.isPlan || r.id !in g || !g[r.id].Blocked()
  }

  predicate Edge(g: Facts, a: string, b: string) {
    a in g && exists r :: r in DirectBlockers(g[a]) && !r.isPlan && r.id == b
  }

  ghost predicate Path(g: Facts, p: seq<string>) {
    |p| >= 2 && forall i :: 0 <= i < |p| - 1 ==> Edge(g, p[i], p[i + 1])
  }

  ghost predicate PathBetween(g: Facts, p: seq<string>, a: string, b: string) {
    Path(g, p) && p[0] == a && p[|p| - 1] == b
  }

  /** Task `a` waits, over one or more blocked-by edges, on task `b`. */
  ghost predicate WaitsOn(g: Facts, a: string, b: string) {
    exists p :: PathBetween(g, p, a, b)
  }

  ghost predicate OnCycle(g: Facts, id: string) {
    WaitsOn(g, id, id)
  }

  /** Blocker `r` is named by task `id` or by a task `id` waits on. */
  ghost predicate BlockerAbove(g: Facts, id: string, r: BlockerRef) {
    exists mid :: (mid == id || WaitsOn(g, id, mid)) && mid in g && r in DirectBlockers(g[mid])
  }

  ghost predicate Reachable(g: Facts, ref: BlockerRef, r: BlockerRef) {
    r == ref || (!ref.isPlan && BlockerAbove(g, ref.id, r))
  }

  ghost predicate AcyclicAbove(g: Facts, id: string) {
    !OnCycle(g, id) && forall x :: WaitsOn(g, id, x) ==> !OnCycle(g, x)
  }

  /** No blocked-by cycle can be reached from `ref`. */
  ghost predicate CycleFree(g: Facts, ref: BlockerRef) {
    !ref.isPlan ==> AcyclicAbove(g, ref.id)
  }

  lemma EdgeWaits(g: Facts, a: string, b: string)
    requires Edge(g, a, b)
    ensures WaitsOn(g, a, b)
  {
    assert PathBetween(g, [a, b], a, b);
  }

  lemma WaitsTransitive(g: Facts, a: string, b: string, c: string)
    requires WaitsOn(g, a, b) && WaitsOn(g, b, c)
    ensures WaitsOn(g, a, c)
  {
    var p :| PathBetween(g, p, a, b);
    var q :| PathBetween(g, q, b, c);
    var r := p + q[1..];
    forall i | 0 <= i < |r| - 1
      ensures Edge(g, r[i], r[i + 1])
    {
      if i >= |p| - 1 {
        assert r[i] == q[i - (|p| - 1)] && r[i + 1] == q[i + 1 - (|p| - 1)];
      }
    }
    assert PathBetween(g, r, a, c);
  }

  /** The first edge of a wait: a direct task blocker that is the target or waits on it. */
  lemma WaitsFirstEdge(g: Facts, a: string, c: string) returns (next: BlockerRef)
    requires WaitsOn(g, a, c)
    ensures a in g && next in DirectBlockers(g[a]) && !next.isPlan
    ensures next.id == c || WaitsOn(g, next.id, c)
  {
    var p :| PathBetween(g, p, a, c);
    assert Edge(g, p[0], p[1]);
    next :| next in DirectBlockers(g[a]) && !next.isPlan && next.id == p[1];
    if |p| > 2 {
      assert PathBetween(g, p[1..], next.id, c);
    }
  }

  /** A cycle below a child is a cycle below its parent, and a cycle-free parent has cycle-free children. */
  lemma CycleFreeChild(g: Facts, id: string, next: BlockerRef)
    requires id in g && next in DirectBlockers(g[id])
    requires AcyclicAbove(g, id)
    ensures CycleFree(g, next)
  {
    if !next.isPlan {
      assert Edge(g, id, next.id);
      EdgeWaits(g, id, next.id);
      forall x | WaitsOn(g, next.id, x)
        ensures !OnCycle(g, x)
      {
        WaitsTransitive(g, id, next.id, x);
      }
    }
  }

  /** A task a cycle is reachable from has a direct blocker a cycle is reachable from. */
  lemma CyclicChild(g: Facts, id: string) returns (next: BlockerRef)
    requires !AcyclicAbove(g, id)
    ensures id in g && next in DirectBlockers(g[id]) && !next.isPlan && !AcyclicAbove(g, next.id)
  {
    var x :| OnCycle(g, x) && (x == id || WaitsOn(g, id, x));
    next := WaitsFirstEdge(g, id, x);
  }

  lemma AboveChild(g: Facts, id: string, next: BlockerRef, r: BlockerRef)
    requires id in g && next in DirectBlockers(g[id])
    requires Reachable(g, next, r)
    ensures BlockerAbove(g, id, r)
  {
    if r != next {
      var mid :| (mid == next.id || WaitsOn(g, next.id, mid)) && mid in g && r in DirectBlockers(g[mid]);
      assert Edge(g, id, next.id);
      EdgeWaits(g, id, next.id);
      if mid != next.id {
        WaitsTransitive(g, id, next.id, mid);
      }
    }
  }

  /** Whatever blocks `id` further up is `id`'s own blocker or reachable from one of them. */
  lemma AboveThroughChild(g: Facts, id: string, r: BlockerRef) returns (next: BlockerRef)
    requires BlockerAbove(g, id, r)
    ensures id in g && next in DirectBlockers(g[id]) && Reachable(g, next, r)
  {
    var mid :| (mid == id || WaitsOn(g, id, mid)) && mid in g && r in DirectBlockers(g[mid]);
    if mid == id {
      next := r;
    } else {
      next := WaitsFirstEdge(g, id, mid);
    }
  }
}
