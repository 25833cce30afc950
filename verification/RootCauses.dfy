/** `rootCauses`: the depth-first chase to a blocker's actionable roots, with its path-scoped
    visited set, the memo shared by a whole pass, and the call counter. */
module RootCauses {
  import opened BlockerGraph
  import opened Text

  type Memo = map<string, seq<BlockerRef>>

  /** What the calls of one pass share. */
  datatype Pass = Pass(memo: Memo, calls: nat)

  datatype Chased = Chased(roots: seq<BlockerRef>, pass: Pass)

  predicate HasId(rs: seq<BlockerRef>, id: string) {
    exists i :: 0 <= i < |rs| && rs[i].id == id
  }

  predicate DistinctIds(rs: seq<BlockerRef>) {
    forall i, j :: 0 <= i < j < |rs| ==> rs[i].id != rs[j].id
  }

  /** Appends the roots not seen yet, in order. */
  function AddNew(out: seq<BlockerRef>, rs: seq<BlockerRef>): seq<BlockerRef>
    decreases |rs|
  {
    if rs == [] then out
    else AddNew(if HasId(out, rs[0].id) then out else out + [rs[0]], rs[1..])
  }

  /** The memoised chase, as a function of the pass state it starts from. */
  function Chase(g: Facts, ref: BlockerRef, visited: set<string>, p: Pass): Chased
    decreases g.Keys - visited, 0
  {
    var p := p.(calls := p.calls + 1);
    if Terminal(g, ref) || ref.id in visited then Chased([ref], p)
    else if ref.id in p.memo then Chased(p.memo[ref.id], p)
    else
      var below := ChaseAll(g, DirectBlockers(g[ref.id]), visited + {ref.id}, [], p);
      var out := if below.roots == [] then [ref] else below.roots;
      Chased(out, below.pass.(memo := below.pass.memo[ref.id := out]))
  }

  function ChaseAll(g: Facts, nexts: seq<BlockerRef>, visited: set<string>, out: seq<BlockerRef>, p: Pass): Chased
    decreases g.Keys - visited, |nexts|
  {
    if nexts == [] then Chased(out, p)
    else
      var c := Chase(g, nexts[0], visited, p);
      ChaseAll(g, nexts[1..], visited, AddNew(out, c.roots), c.pass)
  }

  /** The same chase with no memo. */
  function Plain(g: Facts, ref: BlockerRef, visited: set<string>): seq<BlockerRef>
    decreases g.Keys - visited, 0
  {
    if Terminal(g, ref) || ref.id in visited then [ref]
    else
      var out := PlainAll(g, DirectBlockers(g[ref.id]), visited + {ref.id}, []);
      if out == [] then [ref] else out
  }

  function PlainAll(g: Facts, nexts: seq<BlockerRef>, visited: set<string>, out: seq<BlockerRef>): seq<BlockerRef>
    decreases g.Keys - visited, |nexts|
  {
    if nexts == [] then out
    else PlainAll(g, nexts[1..], visited, AddNew(out, Plain(g, nexts[0], visited)))
  }

  // ----- AddNew

  lemma {:induction false} AddNewDistinct(out: seq<BlockerRef>, rs: seq<BlockerRef>)
    requires DistinctIds(out)
    ensures DistinctIds(AddNew(out, rs))
    decreases |rs|
  {
    if rs != [] {
      AddNewDistinct(if HasId(out, rs[0].id) then out else out + [rs[0]], rs[1..]);
    }
  }

  lemma {:induction false} AddNewMembers(out: seq<BlockerRef>, rs: seq<BlockerRef>)
    ensures out <= AddNew(out, rs)
    ensures forall r :: r in AddNew(out, rs) ==> r in out || r in rs
    ensures forall r :: r in rs ==> HasId(AddNew(out, rs), r.id)
    decreases |rs|
  {
    if rs != [] {
      var o := if HasId(out, rs[0].id) then out else out + [rs[0]];
      AddNewMembers(o, rs[1..]);
      assert HasId(o, rs[0].id) by {
        if !HasId(out, rs[0].id) { assert o[|out|].id == rs[0].id; }
      }
      var k :| 0 <= k < |o| && o[k].id == rs[0].id;
      assert AddNew(out, rs)[k] == o[k];
      forall r | r in rs
        ensures HasId(AddNew(out, rs), r.id)
      {
        assert r == rs[0] || r in rs[1..];
      }
    }
  }

  // ----- Cost: every expanded body is charged for its own direct blockers, once

  function OutDegree(g: Facts, id: string): nat {
    if id in g then |DirectBlockers(g[id])| else 0
  }

  /** Direct-blocker edges leaving the tasks of a set. */
  ghost function EdgesOut(g: Facts, ids: set<string>): nat {
    if ids == {} then 0
    else
      var id :| id in ids;
      OutDegree(g, id) + EdgesOut(g, ids - {id})
  }

  lemma {:induction false} EdgesOutRemove(g: Facts, ids: set<string>, id: string)
    requires id in ids
    ensures EdgesOut(g, ids) == OutDegree(g, id) + EdgesOut(g, ids - {id})
    decreases ids
  {
    var first :| first in ids && EdgesOut(g, ids) == OutDegree(g, first) + EdgesOut(g, ids - {first});
    if first != id {
      EdgesOutRemove(g, ids - {first}, id);
      EdgesOutRemove(g, ids - {id}, first);
      assert ids - {first} - {id} == ids - {id} - {first};
    }
  }

  lemma {:induction false} EdgesOutUnion(g: Facts, a: set<string>, b: set<string>)
    requires a !! b
    ensures EdgesOut(g, a + b) == EdgesOut(g, a) + EdgesOut(g, b)
    decreases a
  {
    if a == {} {
      assert a + b == b;
    } else {
      var id :| id in a;
      EdgesOutRemove(g, a, id);
      EdgesOutRemove(g, a + b, id);
      assert a + b - {id} == (a - {id}) + b;
      EdgesOutUnion(g, a - {id}, b);
    }
  }

  lemma EdgesOutMonotone(g: Facts, a: set<string>, b: set<string>)
    requires a <= b
    ensures EdgesOut(g, a) <= EdgesOut(g, b)
  {
    assert a + (b - a) == b;
    EdgesOutUnion(g, a, b - a);
  }

  /** `after` extends `before` by memo entries of blocked tasks off the path only, and the calls made
      in between are `own` plus one per edge leaving each newly expanded task. */
  ghost predicate Extends(g: Facts, visited: set<string>, before: Pass, after: Pass, own: nat) {
    && before.memo.Keys <= after.memo.Keys
    && (forall id :: id in before.memo ==> after.memo[id] == before.memo[id])
    && (forall id :: id in after.memo && id !in before.memo ==> id in g && g[id].Blocked() && id !in visited)
    && after.calls == before.calls + own + EdgesOut(g, after.memo.Keys - before.memo.Keys)
  }

  lemma ExtendsThen(g: Facts, visited: set<string>, a: Pass, b: Pass, c: Pass, m: nat, n: nat)
    requires Extends(g, visited, a, b, m) && Extends(g, visited, b, c, n)
    ensures Extends(g, visited, a, c, m + n)
  {
    var ab, bc := b.memo.Keys - a.memo.Keys, c.memo.Keys - b.memo.Keys;
    assert c.memo.Keys - a.memo.Keys == ab + bc;
    EdgesOutUnion(g, ab, bc);
  }

  lemma {:induction false} ChaseCost(g: Facts, ref: BlockerRef, visited: set<string>, p: Pass)
    ensures Extends(g, visited, p, Chase(g, ref, visited, p).pass, 1)
    decreases g.Keys - visited, 0
  {
    var c := Chase(g, ref, visited, p);
    if Terminal(g, ref) || ref.id in visited || ref.id in p.memo {
      assert c.pass.memo.Keys - p.memo.Keys == {};
    } else {
      var p1 := p.(calls := p.calls + 1);
      var nexts := DirectBlockers(g[ref.id]);
      ChaseAllCost(g, nexts, visited + {ref.id}, [], p1);
      var b := ChaseAll(g, nexts, visited + {ref.id}, [], p1).pass;
      var minted := b.memo.Keys - p.memo.Keys;
      assert ref.id !in b.memo;
      assert c.pass.memo.Keys - p.memo.Keys == minted + {ref.id};
      EdgesOutUnion(g, minted, {ref.id});
      EdgesOutRemove(g, {ref.id}, ref.id);
    }
  }

  lemma {:induction false} ChaseAllCost(g: Facts, nexts: seq<BlockerRef>, visited: set<string>, out: seq<BlockerRef>, p: Pass)
    ensures Extends(g, visited, p, ChaseAll(g, nexts, visited, out, p).pass, |nexts|)
    decreases g.Keys - visited, |nexts|
  {
    if nexts == [] {
      assert p.memo.Keys - p.memo.Keys == {};
    } else {
      var c := Chase(g, nexts[0], visited, p);
      ChaseCost(g, nexts[0], visited, p);
      ChaseAllCost(g, nexts[1..], visited, AddNew(out, c.roots), c.pass);
      ExtendsThen(g, visited, p, c.pass, ChaseAll(g, nexts, visited, out, p).pass, 1, |nexts| - 1);
    }
  }

  // ----- Any graph: every root is genuine

  /** Everything on the current path waits on `ref`. */
  ghost predicate Ancestors(g: Facts, visited: set<string>, ref: BlockerRef) {
    forall v :: v in visited && !ref.isPlan ==> WaitsOn(g, v, ref.id)
  }

  /** A root is something to act on, or a member of a blocked-by cycle. */
  ghost predicate GenuineRoot(g: Facts, r: BlockerRef) {
    Terminal(g, r) || OnCycle(g, r.id)
  }

  ghost predicate SoundEntry(g: Facts, id: string, rs: seq<BlockerRef>) {
    && rs != []
    && DistinctIds(rs)
    && forall r :: r in rs ==> BlockerAbove(g, id, r) && GenuineRoot(g, r)
  }

  ghost predicate SoundMemo(g: Facts, memo: Memo) {
    forall id :: id in memo ==> SoundEntry(g, id, memo[id])
  }

  lemma ChildAncestors(g: Facts, id: string, visited: set<string>, ref: BlockerRef)
    requires id in g && ref.id == id && !ref.isPlan && Ancestors(g, visited, ref)
    ensures forall next :: next in DirectBlockers(g[id]) ==> Ancestors(g, visited + {id}, next)
  {
    forall next, v | next in DirectBlockers(g[id]) && v in visited + {id} && !next.isPlan
      ensures WaitsOn(g, v, next.id)
    {
      assert Edge(g, id, next.id);
      EdgeWaits(g, id, next.id);
      if v != id {
        WaitsTransitive(g, v, id, next.id);
      }
    }
  }

  /** On any graph, cycles included: the roots are non-empty, duplicate-free, reachable from the
      reference, and each is terminal or on a cycle; the memo keeps that promise for later calls. */
  lemma {:induction false} ChaseSound(g: Facts, ref: BlockerRef, visited: set<string>, p: Pass)
    requires SoundMemo(g, p.memo) && Ancestors(g, visited, ref)
    ensures var c := Chase(g, ref, visited, p);
      && SoundMemo(g, c.pass.memo)
      && c.roots != [] && DistinctIds(c.roots)
      && forall r :: r in c.roots ==> Reachable(g, ref, r) && GenuineRoot(g, r)
    decreases g.Keys - visited, 0
  {
    if !Terminal(g, ref) && ref.id !in visited && ref.id !in p.memo {
      ChildAncestors(g, ref.id, visited, ref);
      ChaseAllSound(g, ref.id, DirectBlockers(g[ref.id]), visited + {ref.id}, [], p.(calls := p.calls + 1));
    }
  }

  lemma {:induction false} ChaseAllSound(g: Facts, id: string, nexts: seq<BlockerRef>, visited: set<string>,
                                         out: seq<BlockerRef>, p: Pass)
    requires id in g && SoundMemo(g, p.memo) && DistinctIds(out)
    requires forall next :: next in nexts ==> next in DirectBlockers(g[id]) && Ancestors(g, visited, next)
    requires forall r :: r in out ==> BlockerAbove(g, id, r) && GenuineRoot(g, r)
    ensures var c := ChaseAll(g, nexts, visited, out, p);
      && SoundMemo(g, c.pass.memo)
      && (out != [] || nexts != [] ==> c.roots != [])
      && DistinctIds(c.roots)
      && forall r :: r in c.roots ==> BlockerAbove(g, id, r) && GenuineRoot(g, r)
    decreases g.Keys - visited, |nexts|
  {
    if nexts != [] {
      ChaseSound(g, nexts[0], visited, p);
      var c := Chase(g, nexts[0], visited, p);
      AddNewDistinct(out, c.roots);
      AddNewMembers(out, c.roots);
      var o := AddNew(out, c.roots);
      forall r | r in o
        ensures BlockerAbove(g, id, r) && GenuineRoot(g, r)
      {
        if r !in out {
          AboveChild(g, id, nexts[0], r);
        }
      }
      assert o != [] by {
        assert c.roots[0] in c.roots;
      }
      ChaseAllSound(g, id, nexts[1..], visited, o, c.pass);
    }
  }

  // ----- Cycle-free references: the memo is exact

  /** The unmemoised roots of a blocked task, its own id already on the path. */
  function PlainOf(g: Facts, id: string): seq<BlockerRef>
    requires id in g
  {
    PlainAll(g, DirectBlockers(g[id]), {id}, [])
  }

  ghost predicate ExactMemo(g: Facts, memo: Memo) {
    forall id :: id in memo && AcyclicAbove(g, id) ==> id in g && memo[id] == PlainOf(g, id)
  }

  lemma {:induction false} PlainPathFree(g: Facts, ref: BlockerRef, v1: set<string>, v2: set<string>)
    requires CycleFree(g, ref) && Ancestors(g, v1, ref) && Ancestors(g, v2, ref)
    ensures Plain(g, ref, v1) == Plain(g, ref, v2)
    decreases g.Keys - v1, 0
  {
    if !Terminal(g, ref) {
      assert ref.id !in v1 && ref.id !in v2;
      ChildAncestors(g, ref.id, v1, ref);
      ChildAncestors(g, ref.id, v2, ref);
      PlainAllPathFree(g, ref.id, DirectBlockers(g[ref.id]), v1 + {ref.id}, v2 + {ref.id}, []);
    }
  }

  lemma {:induction false} PlainAllPathFree(g: Facts, id: string, nexts: seq<BlockerRef>,
                                            v1: set<string>, v2: set<string>, out: seq<BlockerRef>)
    requires id in g && AcyclicAbove(g, id)
    requires forall next :: next in nexts ==>
      next in DirectBlockers(g[id]) && Ancestors(g, v1, next) && Ancestors(g, v2, next)
    ensures PlainAll(g, nexts, v1, out) == PlainAll(g, nexts, v2, out)
    decreases g.Keys - v1, |nexts|
  {
    if nexts != [] {
      CycleFreeChild(g, id, nexts[0]);
      PlainPathFree(g, nexts[0], v1, v2);
      PlainAllPathFree(g, id, nexts[1..], v1, v2, AddNew(out, Plain(g, nexts[0], v1)));
    }
  }

  lemma {:induction false} ChaseExact(g: Facts, ref: BlockerRef, visited: set<string>, p: Pass)
    requires ExactMemo(g, p.memo) && Ancestors(g, visited, ref)
    ensures ExactMemo(g, Chase(g, ref, visited, p).pass.memo)
    ensures CycleFree(g, ref) ==> Chase(g, ref, visited, p).roots == Plain(g, ref, {})
    decreases g.Keys - visited, 0
  {
    if !Terminal(g, ref) && ref.id !in visited {
      var nexts := DirectBlockers(g[ref.id]);
      ChildAncestors(g, ref.id, {}, ref);
      assert {} + {ref.id} == {ref.id};
      if ref.id !in p.memo {
        ChildAncestors(g, ref.id, visited, ref);
        ChaseAllExact(g, ref.id, nexts, visited + {ref.id}, [], p.(calls := p.calls + 1));
        if CycleFree(g, ref) {
          PlainAllPathFree(g, ref.id, nexts, visited + {ref.id}, {ref.id}, []);
          PlainNonEmpty(g, nexts, {ref.id}, []);
        }
      } else if CycleFree(g, ref) {
        PlainNonEmpty(g, nexts, {ref.id}, []);
      }
    }
  }

  lemma {:induction false} ChaseAllExact(g: Facts, id: string, nexts: seq<BlockerRef>, visited: set<string>,
                                         out: seq<BlockerRef>, p: Pass)
    requires id in g && ExactMemo(g, p.memo)
    requires forall next :: next in nexts ==> next in DirectBlockers(g[id]) && Ancestors(g, visited, next)
    ensures ExactMemo(g, ChaseAll(g, nexts, visited, out, p).pass.memo)
    ensures AcyclicAbove(g, id) ==> ChaseAll(g, nexts, visited, out, p).roots == PlainAll(g, nexts, visited, out)
    decreases g.Keys - visited, |nexts|
  {
    if nexts != [] {
      var c := Chase(g, nexts[0], visited, p);
      ChaseExact(g, nexts[0], visited, p);
      if AcyclicAbove(g, id) {
        CycleFreeChild(g, id, nexts[0]);
        PlainPathFree(g, nexts[0], {}, visited);
      }
      ChaseAllExact(g, id, nexts[1..], visited, AddNew(out, c.roots), c.pass);
    }
  }

  lemma {:induction false} PlainNonEmpty(g: Facts, nexts: seq<BlockerRef>, visited: set<string>, out: seq<BlockerRef>)
    ensures out <= PlainAll(g, nexts, visited, out)
    ensures nexts != [] ==> PlainAll(g, nexts, visited, out) != []
    decreases |nexts|
  {
    if nexts != [] {
      var rs := Plain(g, nexts[0], visited);
      AddNewMembers(out, rs);
      assert rs[0] in rs;
      PlainNonEmpty(g, nexts[1..], visited, AddNew(out, rs));
    }
  }

  // ----- Cycle-free references: no terminal blocker is missed

  ghost predicate Covers(g: Facts, ref: BlockerRef, rs: seq<BlockerRef>) {
    forall r :: Terminal(g, r) && Reachable(g, ref, r) ==> HasId(rs, r.id)
  }

  lemma {:induction false} PlainComplete(g: Facts, ref: BlockerRef, visited: set<string>)
    requires CycleFree(g, ref) && Ancestors(g, visited, ref)
    ensures Covers(g, ref, Plain(g, ref, visited))
    decreases g.Keys - visited, 0
  {
    var rs := Plain(g, ref, visited);
    if Terminal(g, ref) {
      forall r | Terminal(g, r) && Reachable(g, ref, r)
        ensures HasId(rs, r.id)
      {
        assert rs[0] == ref;
        if r != ref {
          var next := AboveThroughChild(g, ref.id, r);
        }
      }
    } else {
      var nexts := DirectBlockers(g[ref.id]);
      ChildAncestors(g, ref.id, visited, ref);
      PlainAllComplete(g, ref.id, nexts, visited + {ref.id}, []);
      PlainNonEmpty(g, nexts, visited + {ref.id}, []);
      forall r | Terminal(g, r) && Reachable(g, ref, r)
        ensures HasId(rs, r.id)
      {
        var next := AboveThroughChild(g, ref.id, r);
      }
    }
  }

  lemma {:induction false} PlainAllComplete(g: Facts, id: string, nexts: seq<BlockerRef>, visited: set<string>,
                                            out: seq<BlockerRef>)
    requires id in g && AcyclicAbove(g, id)
    requires forall next :: next in nexts ==> next in DirectBlockers(g[id]) && Ancestors(g, visited, next)
    ensures forall next :: next in nexts ==> Covers(g, next, PlainAll(g, nexts, visited, out))
    decreases g.Keys - visited, |nexts|
  {
    if nexts != [] {
      var rs := Plain(g, nexts[0], visited);
      var o := AddNew(out, rs);
      CycleFreeChild(g, id, nexts[0]);
      PlainComplete(g, nexts[0], visited);
      PlainAllComplete(g, id, nexts[1..], visited, o);
      AddNewMembers(out, rs);
      PlainNonEmpty(g, nexts[1..], visited, o);
      forall r | Terminal(g, r) && Reachable(g, nexts[0], r)
        ensures HasId(PlainAll(g, nexts, visited, out), r.id)
      {
        assert HasId(rs, r.id);
        var k :| 0 <= k < |rs| && rs[k].id == r.id;
        assert rs[k] in rs;
        var j :| 0 <= j < |o| && o[j].id == r.id;
        assert PlainAll(g, nexts, visited, out)[j] == o[j];
      }
    }
  }

  // ----- A reachable cycle always surfaces as a root that is not terminal

  ghost predicate Unresolved(g: Facts, rs: seq<BlockerRef>) {
    exists r :: r in rs && !Terminal(g, r)
  }

  ghost predicate CycleShows(g: Facts, memo: Memo) {
    forall id :: id in memo && !AcyclicAbove(g, id) ==> Unresolved(g, memo[id])
  }

  /** A blocker of the graph sharing its id with a non-terminal one is itself non-terminal. */
  lemma SameIdUnresolved(g: Facts, id: string, r: BlockerRef, kept: BlockerRef)
    requires WellKeyed(g) && BlockerAbove(g, id, kept) && kept.id == r.id && !Terminal(g, r)
    ensures !Terminal(g, kept)
  {
    var mid :| (mid == id || WaitsOn(g, id, mid)) && mid in g && kept in DirectBlockers(g[mid]);
    if kept.isPlan {
    }
  }

  lemma AddNewKeepsId(out: seq<BlockerRef>, rs: seq<BlockerRef>, r: BlockerRef) returns (kept: BlockerRef)
    requires r in out || r in rs
    ensures kept in AddNew(out, rs) && kept.id == r.id
  {
    AddNewMembers(out, rs);
    if r in out {
      kept := r;
    } else {
      var j :| 0 <= j < |AddNew(out, rs)| && AddNew(out, rs)[j].id == r.id;
      kept := AddNew(out, rs)[j];
    }
  }

  lemma AddNewUnresolved(g: Facts, id: string, out: seq<BlockerRef>, rs: seq<BlockerRef>)
    requires WellKeyed(g)
    requires forall r :: r in out || r in rs ==> BlockerAbove(g, id, r)
    requires Unresolved(g, out) || Unresolved(g, rs)
    ensures Unresolved(g, AddNew(out, rs))
  {
    var r :| (r in out || r in rs) && !Terminal(g, r);
    var kept := AddNewKeepsId(out, rs, r);
    AddNewMembers(out, rs);
    SameIdUnresolved(g, id, r, kept);
  }

  lemma {:induction false} ChaseShowsCycle(g: Facts, ref: BlockerRef, visited: set<string>, p: Pass)
    requires WellKeyed(g) && SoundMemo(g, p.memo) && CycleShows(g, p.memo) && Ancestors(g, visited, ref)
    ensures CycleShows(g, Chase(g, ref, visited, p).pass.memo)
    ensures !CycleFree(g, ref) ==> Unresolved(g, Chase(g, ref, visited, p).roots)
    decreases g.Keys - visited, 0
  {
    var c := Chase(g, ref, visited, p);
    if !CycleFree(g, ref) {
      var next := CyclicChild(g, ref.id);
      assert g[ref.id].Blocked();
      if ref.id in visited {
        assert c.roots[0] == ref && ref in c.roots;
      }
    }
    if !Terminal(g, ref) && ref.id !in visited && ref.id !in p.memo {
      ChildAncestors(g, ref.id, visited, ref);
      ChaseAllShowsCycle(g, ref.id, DirectBlockers(g[ref.id]), visited + {ref.id}, [], p.(calls := p.calls + 1));
      if !AcyclicAbove(g, ref.id) {
        var next := CyclicChild(g, ref.id);
      }
    }
  }

  lemma {:induction false} ChaseAllShowsCycle(g: Facts, id: string, nexts: seq<BlockerRef>, visited: set<string>,
                                              out: seq<BlockerRef>, p: Pass)
    requires id in g && WellKeyed(g) && SoundMemo(g, p.memo) && CycleShows(g, p.memo)
    requires forall next :: next in nexts ==> next in DirectBlockers(g[id]) && Ancestors(g, visited, next)
    requires forall r :: r in out ==> BlockerAbove(g, id, r)
    ensures CycleShows(g, ChaseAll(g, nexts, visited, out, p).pass.memo)
    ensures Unresolved(g, out) || (exists next :: next in nexts && !CycleFree(g, next)) ==>
      Unresolved(g, ChaseAll(g, nexts, visited, out, p).roots)
    decreases g.Keys - visited, |nexts|
  {
    if nexts != [] {
      var c := Chase(g, nexts[0], visited, p);
      var o := AddNew(out, c.roots);
      ChaseShowsCycle(g, nexts[0], visited, p);
      ChaseSound(g, nexts[0], visited, p);
      AddNewMembers(out, c.roots);
      forall r | r in out || r in c.roots
        ensures BlockerAbove(g, id, r)
      {
        if r in c.roots {
          AboveChild(g, id, nexts[0], r);
        }
      }
      if Unresolved(g, out) || Unresolved(g, c.roots) {
        AddNewUnresolved(g, id, out, c.roots);
      }
      ChaseAllShowsCycle(g, id, nexts[1..], visited, o, c.pass);
    }
  }

  // ----- The memo's promise, and what one top-level chase answers

  /** What every memo left by earlier calls of a pass satisfies. */
  ghost predicate PassInvariant(g: Facts, memo: Memo) {
    SoundMemo(g, memo) && ExactMemo(g, memo) && CycleShows(g, memo)
  }

  lemma ChaseKeepsInvariant(g: Facts, ref: BlockerRef, visited: set<string>, p: Pass)
    requires WellKeyed(g) && PassInvariant(g, p.memo) && Ancestors(g, visited, ref)
    ensures PassInvariant(g, Chase(g, ref, visited, p).pass.memo)
  {
    ChaseSound(g, ref, visited, p);
    ChaseExact(g, ref, visited, p);
    ChaseShowsCycle(g, ref, visited, p);
  }

  /** With any memo of the pass and any path above it, a chase answers with terminal blockers only
      exactly when no blocked-by cycle is reachable from the reference. */
  lemma TerminalExactlyWhenCycleFree(g: Facts, ref: BlockerRef, visited: set<string>, p: Pass)
    requires WellKeyed(g) && PassInvariant(g, p.memo) && Ancestors(g, visited, ref)
    ensures (forall r :: r in Chase(g, ref, visited, p).roots ==> Terminal(g, r)) <==> CycleFree(g, ref)
  {
    ChaseSound(g, ref, visited, p);
    ChaseShowsCycle(g, ref, visited, p);
    var c := Chase(g, ref, visited, p);
    if CycleFree(g, ref) {
      forall r | r in c.roots
        ensures Terminal(g, r)
      {
        if !Terminal(g, r) && r != ref {
          var mid :| (mid == ref.id || WaitsOn(g, ref.id, mid)) && mid in g && r in DirectBlockers(g[mid]);
          assert Edge(g, mid, r.id);
          EdgeWaits(g, mid, r.id);
          if mid != ref.id { WaitsTransitive(g, ref.id, mid, r.id); }
        }
      }
    }
  }

  /** Off-cycle, the memoised chase is the unmemoised one, and its ids are exactly those of the
      terminal blockers reachable from the reference, each once. */
  lemma ExactWhenCycleFree(g: Facts, ref: BlockerRef, visited: set<string>, p: Pass)
    requires WellKeyed(g) && PassInvariant(g, p.memo) && Ancestors(g, visited, ref)
    requires CycleFree(g, ref)
    ensures Chase(g, ref, visited, p).roots == Plain(g, ref, {})
    ensures DistinctIds(Plain(g, ref, {}))
    ensures forall id :: HasId(Plain(g, ref, {}), id) <==>
      exists r :: Terminal(g, r) && Reachable(g, ref, r) && r.id == id
  {
    ChaseExact(g, ref, visited, p);
    ChaseSound(g, ref, visited, p);
    TerminalExactlyWhenCycleFree(g, ref, visited, p);
    PlainComplete(g, ref, {});
    var rs := Plain(g, ref, {});
    forall id | HasId(rs, id)
      ensures exists r :: Terminal(g, r) && Reachable(g, ref, r) && r.id == id
    {
      var k :| 0 <= k < |rs| && rs[k].id == id;
      assert rs[k] in rs;
    }
  }

  // ----- The code itself

  /** One ranking pass: the memo and counter every call shares, and the current path. */
  class ChasePass {
    const facts: Facts
    var visited: set<string>
    var memo: Memo
    var calls: nat

    constructor (facts: Facts)
      ensures this.facts == facts && visited == {} && memo == map[] && calls == 0
    {
      this.facts := facts;
      visited, memo, calls := {}, map[], 0;
    }

    function State(): Pass
      reads this
    {
      Pass(memo, calls)
    }

    /** The inner loop of the walk: the roots of one blocker join those collected so far. */
    method AppendNew(soFar: seq<BlockerRef>, ids: set<string>, rs: seq<BlockerRef>)
      returns (out: seq<BlockerRef>, seen: set<string>)
      requires forall id :: id in ids <==> HasId(soFar, id)
      ensures out == AddNew(soFar, rs) && forall id :: id in seen <==> HasId(out, id)
    {
      out, seen := soFar, ids;
      for j := 0 to |rs|
        invariant forall id :: id in seen <==> HasId(out, id)
        invariant AddNew(soFar, rs) == AddNew(out, rs[j..])
      {
        assert rs[j..][1..] == rs[j + 1..];
        if rs[j].id !in seen {
          seen := seen + {rs[j].id};
          out := out + [rs[j]];
          assert out[|out| - 1].id == rs[j].id;
          assert forall id :: HasId(out, id) <==> id == rs[j].id || HasId(out[..|out| - 1], id);
          assert out[..|out| - 1] + [rs[j]] == out;
        }
      }
    }

    method RootCauses(ref: BlockerRef) returns (out: seq<BlockerRef>)
      modifies this
      ensures visited == old(visited)
      ensures Chased(out, State()) == Chase(facts, ref, old(visited), old(State()))
      decreases facts.Keys - visited
    {
      calls := calls + 1;
      if ref.isPlan {
        return [ref];
      }
      if ref.id !in facts || !facts[ref.id].Blocked() || ref.id in visited {
        return [ref];
      }
      if ref.id in memo {
        return memo[ref.id];
      }
      ghost var entered := State();
      visited := visited + {ref.id};
      var seen: set<string> := {};
      out := [];
      var nexts := ListDirectBlockers(facts[ref.id]);
      for i := 0 to |nexts|
        invariant visited == old(visited) + {ref.id}
        invariant forall id :: id in seen <==> HasId(out, id)
        invariant ChaseAll(facts, nexts, visited, [], entered) == ChaseAll(facts, nexts[i..], visited, out, State())
      {
        assert nexts[i..] != [] && nexts[i..][0] == nexts[i] && nexts[i..][1..] == nexts[i + 1..];
        var rs := RootCauses(nexts[i]);
        out, seen := AppendNew(out, seen, rs);
      }
      if |out| == 0 {
        out := [ref];
      }
      memo := memo[ref.id := out];
      visited := visited - {ref.id};
    }
  }
}
