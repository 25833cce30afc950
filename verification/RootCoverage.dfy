/** What a chase finds on any graph: with the path it starts from and the memo it finds, exactly the terminal
    blockers that a line of blocked tasks off both leads to, and those the memo names at the end of one. */
module RootCoverage {
  import opened Text
  import opened BlockerGraph
  import opened RootCauses
  import opened ConcernRanking

  // ----- Lines a chase can follow

  /** The chase goes on through `ref`. */
  predicate Open(g: Facts, path: set<string>, memo: Memo, ref: BlockerRef) {
    !Terminal(g, ref) && ref.id !in path && ref.id !in memo
  }

  /** The chase ends at `ref` with a root of this id: `ref` is terminal, or its entry names one. */
  predicate Names(g: Facts, path: set<string>, memo: Memo, ref: BlockerRef, key: string) {
    if Terminal(g, ref) then ref.id == key
    else ref.id !in path && ref.id in memo && HasId(memo[ref.id], key)
  }

  /** From blocker to blocker through open ones. */
  ghost predicate Follows(g: Facts, path: set<string>, memo: Memo, line: seq<BlockerRef>) {
    && line != []
    && forall i :: 0 <= i < |line| - 1 ==> Open(g, path, memo, line[i]) && line[i + 1] in DirectBlockers(g[line[i].id])
  }

  ghost predicate LineTo(g: Facts, path: set<string>, memo: Memo, line: seq<BlockerRef>, key: string) {
    Follows(g, path, memo, line) && Names(g, path, memo, line[|line| - 1], key)
  }

  ghost predicate LeadsFrom(g: Facts, path: set<string>, memo: Memo, ref: BlockerRef, key: string) {
    exists line :: LineTo(g, path, memo, line, key) && line[0] == ref
  }

  /** The id of a root that nothing in the pass stands above. */
  predicate Resolved(g: Facts, key: string) {
    key in g ==> !g[key].Blocked()
  }

  lemma LeadsHere(g: Facts, path: set<string>, memo: Memo, ref: BlockerRef, key: string)
    requires Names(g, path, memo, ref, key)
    ensures LeadsFrom(g, path, memo, ref, key)
  {
    assert LineTo(g, path, memo, [ref], key);
  }

  lemma LeadsThrough(g: Facts, path: set<string>, memo: Memo, ref: BlockerRef, next: BlockerRef, key: string)
    requires Open(g, path, memo, ref) && next in DirectBlockers(g[ref.id]) && LeadsFrom(g, path, memo, next, key)
    ensures LeadsFrom(g, path, memo, ref, key)
  {
    var line: seq<BlockerRef> :| LineTo(g, path, memo, line, key) && line[0] == next;
    var longer := [ref] + line;
    forall i | 0 <= i < |longer| - 1
      ensures Open(g, path, memo, longer[i]) && longer[i + 1] in DirectBlockers(g[longer[i].id])
    {
      assert longer[i + 1] == line[i] && (i > 0 ==> longer[i] == line[i - 1]);
    }
    assert longer[|longer| - 1] == line[|line| - 1];
    assert LineTo(g, path, memo, longer, key);
  }

  /** Where a task's line starts from does not depend on how the task is told. */
  lemma LeadsSame(g: Facts, path: set<string>, memo: Memo, a: BlockerRef, b: BlockerRef, key: string)
    requires a.id == b.id && !a.isPlan && !b.isPlan && LeadsFrom(g, path, memo, a, key)
    ensures LeadsFrom(g, path, memo, b, key)
  {
    var line: seq<BlockerRef> :| LineTo(g, path, memo, line, key) && line[0] == a;
    var other := [b] + line[1..];
    forall i | 0 <= i < |other| - 1
      ensures Open(g, path, memo, other[i]) && other[i + 1] in DirectBlockers(g[other[i].id])
    {
      assert other[i].id == line[i].id && other[i + 1] == line[i + 1];
      assert Open(g, path, memo, line[i]);
    }
    assert other[|other| - 1].id == line[|line| - 1].id && (|line| > 1 ==> other[|other| - 1] == line[|line| - 1]);
    assert LineTo(g, path, memo, other, key);
  }

  // ----- Nothing else is found

  /** Entries made since the chase began name only what a line from their task leads to. */
  ghost predicate Explains(g: Facts, path: set<string>, memo: Memo, now: Memo, key: string) {
    && (forall id :: id in memo ==> id in now && now[id] == memo[id])
    && (forall id, ref: BlockerRef :: id in now && id !in memo && HasId(now[id], key) && ref.id == id && !ref.isPlan ==>
          LeadsFrom(g, path, memo, ref, key))
  }

  lemma {:induction false} ChaseExplained(g: Facts, path: set<string>, memo: Memo, ref: BlockerRef, visited: set<string>,
                                          p: Pass, key: string)
    requires Resolved(g, key) && path <= visited && Explains(g, path, memo, p.memo, key)
    ensures var c := Chase(g, ref, visited, p);
      Explains(g, path, memo, c.pass.memo, key) && (HasId(c.roots, key) ==> LeadsFrom(g, path, memo, ref, key))
    decreases g.Keys - visited, 0
  {
    hide LeadsFrom, Names, DirectBlockers, Explains, HasId, Resolved;
    EntriesKept(g, path, memo, p.memo, key);
    if Terminal(g, ref) || ref.id in visited || ref.id in p.memo {
      LeafExplained(g, path, memo, ref, visited, p, key);
    } else {
      var nexts, p1 := DirectBlockers(g[ref.id]), p.(calls := p.calls + 1);
      ChaseAllExplained(g, path, memo, nexts, visited + {ref.id}, [], p1, key);
      var below := ChaseAll(g, nexts, visited + {ref.id}, [], p1);
      ChaseAllCost(g, nexts, visited + {ref.id}, [], p1);
      NotNamed(g, ref, key);
      ExpandedExplained(g, path, memo, ref, below, if below.roots == [] then [ref] else below.roots, key);
    }
  }

  lemma NotNamed(g: Facts, ref: BlockerRef, key: string)
    requires !Terminal(g, ref) && Resolved(g, key)
    ensures !HasId([], key) && !HasId([ref], key)
  {
  }

  lemma EntriesKept(g: Facts, path: set<string>, memo: Memo, now: Memo, key: string)
    requires Explains(g, path, memo, now, key)
    ensures forall id :: id in memo ==> id in now
  {
    hide LeadsFrom;
  }

  lemma LeafExplained(g: Facts, path: set<string>, memo: Memo, ref: BlockerRef, visited: set<string>, p: Pass, key: string)
    requires Resolved(g, key) && path <= visited && Explains(g, path, memo, p.memo, key)
    requires Terminal(g, ref) || ref.id in visited || ref.id in p.memo
    ensures var c := Chase(g, ref, visited, p);
      c.pass.memo == p.memo && (HasId(c.roots, key) ==> LeadsFrom(g, path, memo, ref, key))
  {
    hide LeadsFrom, DirectBlockers;
    if Names(g, path, memo, ref, key) { LeadsHere(g, path, memo, ref, key); }
  }

  /** A task's own entry, made when its blockers have been chased. */
  lemma ExpandedExplained(g: Facts, path: set<string>, memo: Memo, ref: BlockerRef, below: Chased, out: seq<BlockerRef>,
                          key: string)
    requires Open(g, path, memo, ref) && Explains(g, path, memo, below.pass.memo, key)
    requires HasId(out, key) ==> exists next :: next in DirectBlockers(g[ref.id]) && LeadsFrom(g, path, memo, next, key)
    ensures Explains(g, path, memo, below.pass.memo[ref.id := out], key)
    ensures HasId(out, key) ==> LeadsFrom(g, path, memo, ref, key)
  {
    hide LeadsFrom, DirectBlockers;
    if HasId(out, key) {
      var next :| next in DirectBlockers(g[ref.id]) && LeadsFrom(g, path, memo, next, key);
      LeadsThrough(g, path, memo, ref, next, key);
      forall other: BlockerRef | other.id == ref.id && !other.isPlan
        ensures LeadsFrom(g, path, memo, other, key)
      {
        LeadsSame(g, path, memo, ref, other, key);
      }
    }
  }

  lemma {:induction false} ChaseAllExplained(g: Facts, path: set<string>, memo: Memo, nexts: seq<BlockerRef>,
                                             visited: set<string>, out: seq<BlockerRef>, p: Pass, key: string)
    requires Resolved(g, key) && path <= visited && Explains(g, path, memo, p.memo, key)
    ensures var c := ChaseAll(g, nexts, visited, out, p);
      && Explains(g, path, memo, c.pass.memo, key)
      && (HasId(c.roots, key) ==> HasId(out, key) || exists next :: next in nexts && LeadsFrom(g, path, memo, next, key))
    decreases g.Keys - visited, |nexts|
  {
    if nexts != [] {
      var c := Chase(g, nexts[0], visited, p);
      ChaseExplained(g, path, memo, nexts[0], visited, p, key);
      AddNewIds(out, c.roots);
      ChaseAllExplained(g, path, memo, nexts[1..], visited, AddNew(out, c.roots), c.pass, key);
    }
  }

  lemma {:induction false} AddNewIds(out: seq<BlockerRef>, rs: seq<BlockerRef>)
    ensures forall key :: HasId(AddNew(out, rs), key) <==> HasId(out, key) || HasId(rs, key)
    decreases |rs|
  {
    if rs != [] {
      var more := if HasId(out, rs[0].id) then out else out + [rs[0]];
      AddNewIds(more, rs[1..]);
      forall key
        ensures HasId(more, key) || HasId(rs[1..], key) <==> HasId(out, key) || HasId(rs, key)
      {
        OneMoreId(out, rs, more, key);
      }
    }
  }

  lemma OneMoreId(out: seq<BlockerRef>, rs: seq<BlockerRef>, more: seq<BlockerRef>, key: string)
    requires rs != [] && more == if HasId(out, rs[0].id) then out else out + [rs[0]]
    ensures HasId(more, key) || HasId(rs[1..], key) <==> HasId(out, key) || HasId(rs, key)
  {
    if HasId(more, key) {
      var i :| 0 <= i < |more| && more[i].id == key;
      if i >= |out| { assert rs[0].id == key; }
    }
    if HasId(rs[1..], key) {
      var i :| 0 <= i < |rs[1..]| && rs[1..][i].id == key;
      assert rs[i + 1].id == key;
    }
    if HasId(out, key) {
      var i :| 0 <= i < |out| && out[i].id == key;
      assert more[i].id == key;
    }
    if HasId(rs, key) {
      var i :| 0 <= i < |rs| && rs[i].id == key;
      if i == 0 {
        if more != out { assert more[|out|].id == key; }
      } else {
        assert rs[1..][i - 1].id == key;
      }
    }
  }

  // ----- Everything that a line leads to is found

  /** Each blocker of a task memoised on the way ends the chase, is on the path or is memoised too; and what
      it names was found. */
  ghost predicate Swept(g: Facts, path: set<string>, memo: Memo, visited: set<string>, before: Memo, c: Chased, key: string) {
    forall id, d :: id in c.pass.memo && id !in before && id in g && d in DirectBlockers(g[id]) ==>
      && (Terminal(g, d) || d.id in visited || d.id in c.pass.memo)
      && (Names(g, path, memo, d, key) ==> HasId(c.roots, key))
  }

  lemma {:induction false} ChaseSweeps(g: Facts, path: set<string>, memo: Memo, ref: BlockerRef, visited: set<string>,
                                       p: Pass, key: string)
    requires path <= visited && (visited - path) !! memo.Keys
    requires forall id :: id in memo ==> id in p.memo && p.memo[id] == memo[id]
    ensures var c := Chase(g, ref, visited, p);
      && Swept(g, path, memo, visited, p.memo, c, key)
      && (Terminal(g, ref) || ref.id in visited || ref.id in c.pass.memo)
      && (Names(g, path, memo, ref, key) ==> HasId(c.roots, key))
    decreases g.Keys - visited, 0
  {
    var c := Chase(g, ref, visited, p);
    ChaseCost(g, ref, visited, p);
    if Terminal(g, ref) {
      assert c.roots[0] == ref;
    } else if ref.id !in visited && ref.id !in p.memo {
      var nexts, p1 := DirectBlockers(g[ref.id]), p.(calls := p.calls + 1);
      ChaseAllSweeps(g, path, memo, nexts, visited + {ref.id}, [], p1, key);
      var below := ChaseAll(g, nexts, visited + {ref.id}, [], p1);
      ChaseAllCost(g, nexts, visited + {ref.id}, [], p1);
      assert HasId(below.roots, key) ==> below.roots != [];
      forall id, d | id in c.pass.memo && id !in p.memo && id in g && d in DirectBlockers(g[id])
        ensures Terminal(g, d) || d.id in visited || d.id in c.pass.memo
        ensures Names(g, path, memo, d, key) ==> HasId(c.roots, key)
      {
        assert id != ref.id ==> id in below.pass.memo;
      }
    }
  }

  lemma {:induction false} ChaseAllSweeps(g: Facts, path: set<string>, memo: Memo, nexts: seq<BlockerRef>,
                                          visited: set<string>, out: seq<BlockerRef>, p: Pass, key: string)
    requires path <= visited && (visited - path) !! memo.Keys
    requires forall id :: id in memo ==> id in p.memo && p.memo[id] == memo[id]
    ensures var c := ChaseAll(g, nexts, visited, out, p);
      && Swept(g, path, memo, visited, p.memo, c, key)
      && (HasId(out, key) ==> HasId(c.roots, key))
      && (forall d :: d in nexts ==>
            && (Terminal(g, d) || d.id in visited || d.id in c.pass.memo)
            && (Names(g, path, memo, d, key) ==> HasId(c.roots, key)))
    decreases g.Keys - visited, |nexts|
  {
    if nexts != [] {
      var first := Chase(g, nexts[0], visited, p);
      ChaseSweeps(g, path, memo, nexts[0], visited, p, key);
      ChaseCost(g, nexts[0], visited, p);
      AddNewIds(out, first.roots);
      var more := AddNew(out, first.roots);
      ChaseAllSweeps(g, path, memo, nexts[1..], visited, more, first.pass, key);
      ChaseAllCost(g, nexts[1..], visited, more, first.pass);
      var c := ChaseAll(g, nexts, visited, out, p);
      forall id, d | id in c.pass.memo && id !in p.memo && id in g && d in DirectBlockers(g[id])
        ensures Terminal(g, d) || d.id in visited || d.id in c.pass.memo
        ensures Names(g, path, memo, d, key) ==> HasId(c.roots, key)
      {
        if id in first.pass.memo { assert Names(g, path, memo, d, key) ==> HasId(first.roots, key); }
      }
    }
  }

  /** Following a line, every task on it is memoised and its end is found. */
  lemma {:induction false} SweptLine(g: Facts, path: set<string>, memo: Memo, line: seq<BlockerRef>, c: Chased, key: string)
    requires LineTo(g, path, memo, line, key) && Swept(g, path, memo, path, memo, c, key)
    requires Terminal(g, line[0]) || line[0].id in path || line[0].id in c.pass.memo
    requires Names(g, path, memo, line[0], key) ==> HasId(c.roots, key)
    ensures HasId(c.roots, key)
    decreases |line|
  {
    if |line| > 1 {
      assert Open(g, path, memo, line[0]) && line[1] in DirectBlockers(g[line[0].id]);
      var rest := line[1..];
      forall i | 0 <= i < |rest| - 1
        ensures Open(g, path, memo, rest[i]) && rest[i + 1] in DirectBlockers(g[rest[i].id])
      {
        assert rest[i] == line[i + 1] && rest[i + 1] == line[i + 2];
      }
      SweptLine(g, path, memo, rest, c, key);
    }
  }

  // ----- Main results

  /** On any graph, from any path and with any memo: a chase answers with a terminal root of this id exactly
      when a line of blockers leads from the reference, off the path and through unmemoised blocked tasks
      only, to a terminal blocker of this id or to a memoised task whose entry names it. */
  lemma ChaseCoversExactly(g: Facts, ref: BlockerRef, path: set<string>, p: Pass, key: string)
    requires Resolved(g, key)
    ensures HasId(Chase(g, ref, path, p).roots, key) <==> LeadsFrom(g, path, p.memo, ref, key)
  {
    ChaseExplained(g, path, p.memo, ref, path, p, key);
    ChaseSweeps(g, path, p.memo, ref, path, p, key);
    if LeadsFrom(g, path, p.memo, ref, key) {
      var line: seq<BlockerRef> :| LineTo(g, path, p.memo, line, key) && line[0] == ref;
      SweptLine(g, path, p.memo, line, Chase(g, ref, path, p), key);
    }
  }

  lemma ChaseAllCoversExactly(g: Facts, nexts: seq<BlockerRef>, path: set<string>, p: Pass, key: string)
    requires Resolved(g, key)
    ensures HasId(ChaseAll(g, nexts, path, [], p).roots, key)
      <==> exists next :: next in nexts && LeadsFrom(g, path, p.memo, next, key)
  {
    ChaseAllExplained(g, path, p.memo, nexts, path, [], p, key);
    ChaseAllSweeps(g, path, p.memo, nexts, path, [], p, key);
    if next :| next in nexts && LeadsFrom(g, path, p.memo, next, key) {
      var line: seq<BlockerRef> :| LineTo(g, path, p.memo, line, key) && line[0] == next;
      SweptLine(g, path, p.memo, line, ChaseAll(g, nexts, path, [], p), key);
    }
  }

  // ----- One pass

  /** Visiting a held task's direct blockers in turn is one walk over all of them. */
  lemma {:induction false} MarkIsChaseAll(g: Facts, h: WorkFact, ds: seq<BlockerRef>, out: seq<BlockerRef>, m: Marked)
    requires forall key :: HasId(out, key) ==> Holds(m.roots, key, h.id)
    ensures var c := ChaseAll(g, ds, {h.id}, out, m.pass); var last := Mark(g, VisitsOf(h, ds), m);
      && last.pass == c.pass
      && forall key :: Holds(last.roots, key, h.id) <==> Holds(m.roots, key, h.id) || HasId(c.roots, key)
    decreases |ds|
  {
    if ds == [] {
      assert VisitsOf(h, ds) == [];
    } else {
      var vs := VisitsOf(h, ds);
      assert vs[0] == Visit(h, ds[0]) && vs[1..] == VisitsOf(h, ds[1..]);
      var c := Chase(g, ds[0], {h.id}, m.pass);
      var next := MarkFirst(g, vs, m);
      hide Mark, Chase, HoldAll;
      HoldAllHolds(m.roots, c.roots, vs[0]);
      AddNewIds(out, c.roots);
      MarkIsChaseAll(g, h, ds[1..], AddNew(out, c.roots), next);
      AllKept(g, ds[1..], {h.id}, AddNew(out, c.roots), next.pass);
    }
  }

  lemma {:induction false} AllKept(g: Facts, nexts: seq<BlockerRef>, visited: set<string>, out: seq<BlockerRef>, p: Pass)
    ensures forall key :: HasId(out, key) ==> HasId(ChaseAll(g, nexts, visited, out, p).roots, key)
    decreases |nexts|
  {
    if nexts != [] {
      var c := Chase(g, nexts[0], visited, p);
      AddNewIds(out, c.roots);
      AllKept(g, nexts[1..], visited, AddNew(out, c.roots), c.pass);
    }
  }

  lemma {:induction false} VisitsSplit(a: seq<WorkFact>, b: seq<WorkFact>)
    ensures Visits(a + b) == Visits(a) + Visits(b)
    decreases |a|
  {
    if a == [] {
      assert a + b == b;
    } else {
      assert (a + b)[0] == a[0] && (a + b)[1..] == a[1..] + b;
      VisitsSplit(a[1..], b);
    }
  }

  /** The pass before the k-th held task is visited. */
  function MarkedBefore(facts: seq<WorkFact>, k: nat): Marked
    requires k <= |HeldTasks(facts)|
  {
    Mark(ById(facts), Visits(HeldTasks(facts)[..k]), Marked(Pass(map[], 0), map[]))
  }

  /** On any graph: the pass records a held task under a terminal root exactly when a line leads from one of
      its direct blockers to it, off the task and through what earlier visits have not memoised, or to an
      earlier entry that names it. */
  lemma RecordedExactly(facts: seq<WorkFact>, k: nat, key: string)
    requires UniqueIds(facts) && k < |HeldTasks(facts)| && Resolved(ById(facts), key)
    ensures var h := HeldTasks(facts)[k];
      Holds(MarkFacts(facts).roots, key, h.id) <==>
        exists d :: d in DirectBlockers(h) && LeadsFrom(ById(facts), {h.id}, MarkedBefore(facts, k).pass.memo, d, key)
  {
    var g, held := ById(facts), HeldTasks(facts);
    var h, before, start := held[k], MarkedBefore(facts, k), Marked(Pass(map[], 0), map[]);
    var own, rest := VisitsOf(h, DirectBlockers(h)), Visits(held[k + 1..]);
    OtherVisits(facts, k);
    hide Mark, HeldTasks, ById, LeadsFrom, Resolved;
    assert held == held[..k] + held[k..];
    VisitsSplit(held[..k], held[k..]);
    assert Visits(held[k..]) == own + rest by { assert held[k..][1..] == held[k + 1..]; }
    MarkSplit(g, Visits(held[..k]), own + rest, start);
    MarkSplit(g, own, rest, before);
    MarkOnlyVisited(g, Visits(held[..k]), start);
    MarkOnlyVisited(g, rest, Mark(g, own, before));
    MarkMore(g, rest, Mark(g, own, before));
    MarkIsChaseAll(g, h, DirectBlockers(h), [], before);
    ChaseAllCoversExactly(g, DirectBlockers(h), {h.id}, before.pass, key);
  }

  lemma OtherVisits(facts: seq<WorkFact>, k: nat)
    requires UniqueIds(facts) && k < |HeldTasks(facts)|
    ensures var held := HeldTasks(facts);
      && (forall v :: v in Visits(held[..k]) ==> v.task.id != held[k].id)
      && (forall v :: v in Visits(held[k + 1..]) ==> v.task.id != held[k].id)
  {
    var held := HeldTasks(facts);
    HeldTasksUnique(facts);
    VisitsMembers(held[..k]);
    VisitsMembers(held[k + 1..]);
  }

  /** The first held task of a pass misses no terminal root, whatever cycles there are. */
  lemma FirstMissesNothing(facts: seq<WorkFact>, key: string)
    requires UniqueIds(facts) && WellKeyed(ById(facts)) && HeldTasks(facts) != [] && Resolved(ById(facts), key)
    ensures Holds(MarkFacts(facts).roots, key, HeldTasks(facts)[0].id)
      <==> TerminalAbove(ById(facts), HeldTasks(facts)[0].id, key)
  {
    var g, h := ById(facts), HeldTasks(facts)[0];
    ByIdMembers(facts);
    HeldTasksMembers(facts);
    assert h in facts && g[h.id] == h;
    assert MarkedBefore(facts, 0).pass.memo == map[] by { assert HeldTasks(facts)[..0] == []; }
    hide MarkFacts, MarkedBefore, HeldTasks, ById, WellKeyed, Resolved, LeadsFrom, TerminalAbove;
    RecordedExactly(facts, 0, key);
    if d :| d in DirectBlockers(h) && LeadsFrom(g, {h.id}, map[], d, key) {
      LineIsAbove(g, h.id, d, {h.id}, key);
    }
    if TerminalAbove(g, h.id, key) {
      var d := AboveHasLine(g, h.id, key);
    }
  }

  lemma LineIsAbove(g: Facts, id: string, d: BlockerRef, path: set<string>, key: string)
    requires id in g && d in DirectBlockers(g[id]) && LeadsFrom(g, path, map[], d, key)
    ensures TerminalAbove(g, id, key)
  {
    var line: seq<BlockerRef> :| LineTo(g, path, map[], line, key) && line[0] == d;
    FollowsIsAbove(g, id, line, path);
    var r := line[|line| - 1];
    assert Terminal(g, r) && r.id == key;
  }

  lemma {:induction false} FollowsIsAbove(g: Facts, id: string, line: seq<BlockerRef>, path: set<string>)
    requires Follows(g, path, map[], line) && id in g && line[0] in DirectBlockers(g[id])
    ensures BlockerAbove(g, id, line[|line| - 1])
    decreases |line|
  {
    if |line| > 1 {
      assert Open(g, path, map[], line[0]) && line[1] in DirectBlockers(g[line[0].id]);
      var rest := line[1..];
      forall i | 0 <= i < |rest| - 1
        ensures Open(g, path, map[], rest[i]) && rest[i + 1] in DirectBlockers(g[rest[i].id])
      {
        assert rest[i] == line[i + 1] && rest[i + 1] == line[i + 2];
      }
      FollowsIsAbove(g, line[0].id, rest, path);
      AboveChild(g, id, line[0], line[|line| - 1]);
    }
  }

  /** Whatever stands above a task stands above it off the task itself. */
  lemma AboveHasLine(g: Facts, id: string, key: string) returns (d: BlockerRef)
    requires WellKeyed(g) && TerminalAbove(g, id, key)
    ensures id in g && d in DirectBlockers(g[id]) && LeadsFrom(g, {id}, map[], d, key)
  {
    var r: BlockerRef :| r.id == key && Terminal(g, r) && BlockerAbove(g, id, r);
    var mid :| (mid == id || WaitsOn(g, id, mid)) && mid in g && r in DirectBlockers(g[mid]);
    if mid == id {
      d := r;
      LeadsHere(g, {id}, map[], r, key);
    } else {
      var p :| PathBetween(g, p, id, mid);
      d := LastDeparture(g, id, p, r);
    }
  }

  /** The line taken after the path has left the task for the last time. */
  lemma {:induction false} LastDeparture(g: Facts, id: string, p: seq<string>, r: BlockerRef) returns (d: BlockerRef)
    requires WellKeyed(g) && p != [] && p[0] == id && p[|p| - 1] in g && r in DirectBlockers(g[p[|p| - 1]]) && Terminal(g, r)
    requires forall i :: 0 <= i < |p| - 1 ==> Edge(g, p[i], p[i + 1])
    ensures id in g && d in DirectBlockers(g[id]) && LeadsFrom(g, {id}, map[], d, r.id)
    decreases |p|
  {
    if k :| 0 < k < |p| && p[k] == id {
      forall i | 0 <= i < |p[k..]| - 1
        ensures Edge(g, p[k..][i], p[k..][i + 1])
      {
        assert p[k..][i] == p[k + i] && p[k..][i + 1] == p[k + i + 1];
      }
      d := LastDeparture(g, id, p[k..], r);
    } else {
      d := LineAlong(g, id, p, r);
    }
  }

  lemma {:induction false} LineAlong(g: Facts, id: string, p: seq<string>, r: BlockerRef) returns (d: BlockerRef)
    requires WellKeyed(g) && p != [] && p[|p| - 1] in g && r in DirectBlockers(g[p[|p| - 1]]) && Terminal(g, r)
    requires forall i :: 0 <= i < |p| - 1 ==> Edge(g, p[i], p[i + 1])
    requires forall i :: 0 < i < |p| ==> p[i] != id
    ensures p[0] in g && d in DirectBlockers(g[p[0]]) && LeadsFrom(g, {id}, map[], d, r.id)
    decreases |p|
  {
    if |p| == 1 {
      d := r;
      LeadsHere(g, {id}, map[], r, r.id);
    } else {
      assert Edge(g, p[0], p[1]);
      d :| d in DirectBlockers(g[p[0]]) && !d.isPlan && d.id == p[1];
      forall i | 0 <= i < |p[1..]| - 1
        ensures Edge(g, p[1..][i], p[1..][i + 1])
      {
        assert p[1..][i] == p[i + 1] && p[1..][i + 1] == p[i + 2];
      }
      var next := LineAlong(g, id, p[1..], r);
      assert g[p[1]].Blocked();
      LeadsThrough(g, {id}, map[], d, next, r.id);
    }
  }

  // ----- The knot in another order

  /** Task h first: a waits on x and on s, x waits on a, and h waits on x. */
  function KnotReordered(): seq<WorkFact> {
    [TaskH(), TaskA(), TaskX()]
  }

  /** The same facts in another order: now h is recorded under s, although a cycle is reachable from it. */
  lemma OrderKeepsRoot()
    ensures multiset(KnotReordered()) == multiset(Knot())
    ensures Holds(MarkFacts(KnotReordered()).roots, "s", "h") && !Holds(MarkFacts(Knot()).roots, "s", "h")
    ensures !AcyclicAbove(ById(KnotReordered()), "h")
  {
    hide MarkFacts, ById, HeldTasks, TerminalAbove, WellKeyed, WaitsOn, KnotFacts, Resolved, UniqueIds, Holds;
    KnotPermuted();
    KnotReorderedFacts();
    KnotKeyed();
    KnotAbove();
    KnotWaits();
    CycleDropsRoot();
    FirstMissesNothing(KnotReordered(), "s");
  }

  lemma KnotKeyed()
    ensures WellKeyed(KnotFacts()) && Resolved(KnotFacts(), "s")
  {
    assert KnotFacts().Keys == {"a", "x", "h"};
  }

  lemma KnotWaits()
    ensures WaitsOn(KnotFacts(), "h", "a")
  {
    KnotEdges();
    EdgeWaits(KnotFacts(), "h", "x");
    EdgeWaits(KnotFacts(), "x", "a");
    WaitsTransitive(KnotFacts(), "h", "x", "a");
  }

  lemma KnotPermuted()
    ensures multiset(KnotReordered()) == multiset(Knot()) && UniqueIds(KnotReordered())
    ensures KnotReordered()[0].id == "h" && KnotReordered() != []
  {
  }

  lemma KnotReorderedFacts()
    ensures ById(KnotReordered()) == KnotFacts() && HeldTasks(KnotReordered()) == KnotReordered()
  {
    hide ById, HeldTasks, IsHeld;
    Nothing();
    BlockedIsHeld("a", TaskA().openBlockers);
    BlockedIsHeld("x", TaskX().openBlockers);
    BlockedIsHeld("h", TaskH().openBlockers);
    OneMore([], TaskH());
    OneMore([] + [TaskH()], TaskA());
    OneMore([] + [TaskH()] + [TaskA()], TaskX());
    assert [] + [TaskH()] + [TaskA()] + [TaskX()] == KnotReordered();
  }
}
