/** `ordered_list` of `scripts/nsgen.py`: reading a collection back from the triples of a whole document. */
module RdfLists {
  import opened Text
  import opened TurtleSyntax
  import opened TurtleParser
  import opened TurtleMeaning
  import opened TurtleReading
  import opened TurtleRoundTrip

  /** `{s: o for s, p, o in triples if p == predicate}`: the last triple of a subject wins. */
  function Links(triples: seq<Triple>, predicate_: string): map<Value, Value> {
    if triples == [] then map[]
    else
      var init, last := Links(triples[..|triples| - 1], predicate_), triples[|triples| - 1];
      if last.p == TextValue(predicate_) then init[last.s := last.o] else init
  }

  const NIL := TextValue(RDF_NIL)

  /** The walk from `node`; what has been seen cannot come again, so it ends. */
  function Walk(firsts: map<Value, Value>, rests: map<Value, Value>, node: Value, seen: set<Value>,
                items: seq<Value>): Result<seq<Value>>
    decreases firsts.Keys - seen
  {
    if node == NIL then Ok(items)
    else if node !in firsts || node in seen then Err(TurtleError)
    else if node !in rests then Err(KeyError)
    else Walk(firsts, rests, rests[node], seen + {node}, items + [firsts[node]])
  }

  function ListItems(triples: seq<Triple>, head: Value): Result<seq<Value>> {
    Walk(Links(triples, RDF_FIRST), Links(triples, RDF_REST), head, {}, [])
  }

  method OrderedList(triples: seq<Triple>, head: Value) returns (r: Result<seq<Value>>)
    ensures r == ListItems(triples, head)
  {
    var firsts: map<Value, Value>, rests: map<Value, Value> := map[], map[];
    var i := 0;
    while i < |triples|
      invariant 0 <= i <= |triples|
      invariant firsts == Links(triples[..i], RDF_FIRST) && rests == Links(triples[..i], RDF_REST)
    {
      var t := triples[i];
      assert triples[..i + 1][..i] == triples[..i];
      if t.p == TextValue(RDF_FIRST) { firsts := firsts[t.s := t.o]; }
      if t.p == TextValue(RDF_REST) { rests := rests[t.s := t.o]; }
      i := i + 1;
    }
    assert triples[..i] == triples;
    var out: seq<Value>, seen: set<Value>, node := [], {}, head;
    while node != NIL
      invariant Walk(firsts, rests, head, {}, []) == Walk(firsts, rests, node, seen, out)
      decreases firsts.Keys - seen
    {
      if node !in firsts { return Err(TurtleError); }
      if node in seen { return Err(TurtleError); }
      seen := seen + {node};
      out := out + [firsts[node]];
      if node !in rests { return Err(KeyError); }
      node := rests[node];
    }
    return Ok(out);
  }

  // ----- What it accepts

  /** From `node` a nil-ended chain of cells holds exactly `items`. */
  predicate Chain(firsts: map<Value, Value>, rests: map<Value, Value>, node: Value, items: seq<Value>)
    decreases |items|
  {
    if items == [] then node == NIL
    else
      && node != NIL && node in firsts && node in rests
      && firsts[node] == items[0] && Chain(firsts, rests, rests[node], items[1..])
  }

  lemma {:induction false} ChainUnique(firsts: map<Value, Value>, rests: map<Value, Value>, node: Value,
                                       a: seq<Value>, b: seq<Value>)
    requires Chain(firsts, rests, node, a) && Chain(firsts, rests, node, b)
    ensures a == b
    decreases |a|
  {
    if a != [] {
      ChainUnique(firsts, rests, rests[node], a[1..], b[1..]);
      assert a == [a[0]] + a[1..] && b == [b[0]] + b[1..];
    }
  }

  /** Every seen cell starts a longer chain than the one still ahead. */
  ghost predicate LongerBehind(firsts: map<Value, Value>, rests: map<Value, Value>, seen: set<Value>, n: nat) {
    forall v :: v in seen ==> exists b :: |b| > n && Chain(firsts, rests, v, b)
  }

  lemma {:induction false} WalksChain(firsts: map<Value, Value>, rests: map<Value, Value>, node: Value,
                                      seen: set<Value>, out: seq<Value>, items: seq<Value>)
    requires Chain(firsts, rests, node, items) && LongerBehind(firsts, rests, seen, |items|)
    ensures Walk(firsts, rests, node, seen, out) == Ok(out + items)
    decreases |items|
  {
    if items == [] {
      assert out + items == out;
    } else {
      if node in seen {
        var b :| |b| > |items| && Chain(firsts, rests, node, b);
        ChainUnique(firsts, rests, node, items, b);
      }
      WalksChain(firsts, rests, rests[node], seen + {node}, out + [firsts[node]], items[1..]);
      assert out + [firsts[node]] + items[1..] == out + items;
    }
  }

  lemma {:induction false} WalkedChain(firsts: map<Value, Value>, rests: map<Value, Value>, node: Value,
                                       seen: set<Value>, out: seq<Value>)
    requires Walk(firsts, rests, node, seen, out).Ok?
    ensures var r := Walk(firsts, rests, node, seen, out).value;
      out <= r && Chain(firsts, rests, node, r[|out|..])
    decreases firsts.Keys - seen
  {
    if node != NIL {
      var next := out + [firsts[node]];
      WalkedChain(firsts, rests, rests[node], seen + {node}, next);
      var r := Walk(firsts, rests, node, seen, out).value;
      assert r[|out|..][1..] == r[|next|..] && r[|out|] == firsts[node];
    }
  }

  /** On any triples the walk ends, and succeeds exactly on a nil-ended chain of cells, with its items in
      order: a cell without a first or a rest, and a cycle, are refused. */
  lemma AcceptsExactlyChains(triples: seq<Triple>, head: Value, items: seq<Value>)
    ensures ListItems(triples, head) == Ok(items)
      <==> Chain(Links(triples, RDF_FIRST), Links(triples, RDF_REST), head, items)
  {
    var firsts, rests := Links(triples, RDF_FIRST), Links(triples, RDF_REST);
    if ListItems(triples, head).Ok? {
      WalkedChain(firsts, rests, head, {}, []);
      var r := ListItems(triples, head).value;
      assert r[0..] == r;
    }
    if Chain(firsts, rests, head, items) {
      WalksChain(firsts, rests, head, {}, [], items);
      assert [] + items == items;
    }
  }

  /** The last triple of a subject and a predicate is the one that counts. */
  ghost predicate LastLink(triples: seq<Triple>, predicate_: string, k: nat) {
    && k < |triples| && triples[k].p == TextValue(predicate_)
    && forall j :: k < j < |triples| ==> triples[j].s != triples[k].s || triples[j].p != TextValue(predicate_)
  }

  lemma {:induction false} LinksAreLast(triples: seq<Triple>, predicate_: string, k: nat)
    requires LastLink(triples, predicate_, k)
    ensures triples[k].s in Links(triples, predicate_) && Links(triples, predicate_)[triples[k].s] == triples[k].o
  {
    var n := |triples| - 1;
    if k < n { LinksAreLast(triples[..n], predicate_, k); }
  }

  lemma {:induction false} LinkedByLast(triples: seq<Triple>, predicate_: string, s: Value) returns (k: nat)
    requires s in Links(triples, predicate_)
    ensures LastLink(triples, predicate_, k) && triples[k].s == s
  {
    k := |triples| - 1;
    if triples[k].p != TextValue(predicate_) || triples[k].s != s { k := LinkedByLast(triples[..k], predicate_, s); }
  }

  /** From `node` cells lead to one that has a first but no rest. */
  predicate Broken(firsts: map<Value, Value>, rests: map<Value, Value>, node: Value, cells: seq<Value>)
    decreases |cells|
  {
    && cells != [] && cells[0] == node != NIL && node in firsts
    && (node in rests <==> |cells| > 1) && (|cells| > 1 ==> Broken(firsts, rests, rests[node], cells[1..]))
  }

  lemma {:induction false} BrokenUnique(firsts: map<Value, Value>, rests: map<Value, Value>, node: Value,
                                        a: seq<Value>, b: seq<Value>)
    requires Broken(firsts, rests, node, a) && Broken(firsts, rests, node, b)
    ensures |a| == |b|
    decreases |a|
  {
    if |a| > 1 { BrokenUnique(firsts, rests, rests[node], a[1..], b[1..]); }
  }

  lemma {:induction false} WalksBroken(firsts: map<Value, Value>, rests: map<Value, Value>, node: Value,
                                       seen: set<Value>, out: seq<Value>, cells: seq<Value>)
    requires Broken(firsts, rests, node, cells)
    requires forall v :: v in seen ==> exists b :: |b| > |cells| && Broken(firsts, rests, v, b)
    ensures Walk(firsts, rests, node, seen, out) == Err(KeyError)
    decreases |cells|
  {
    if node in seen {
      var b :| |b| > |cells| && Broken(firsts, rests, node, b);
      BrokenUnique(firsts, rests, node, cells, b);
    }
    if |cells| > 1 { WalksBroken(firsts, rests, rests[node], seen + {node}, out + [firsts[node]], cells[1..]); }
  }

  lemma {:induction false} WalkedBroken(firsts: map<Value, Value>, rests: map<Value, Value>, node: Value,
                                        seen: set<Value>, out: seq<Value>) returns (cells: seq<Value>)
    requires Walk(firsts, rests, node, seen, out) == Err(KeyError)
    ensures Broken(firsts, rests, node, cells)
    decreases firsts.Keys - seen
  {
    cells := [node];
    if node in rests {
      var more := WalkedBroken(firsts, rests, rests[node], seen + {node}, out + [firsts[node]]);
      cells := [node] + more;
    }
  }

  /** Python's own KeyError comes exactly of a cell without a rest; any other list that is no chain, with a
      cell missing its first or with a cycle, is refused as malformed. */
  lemma RefusesExactly(triples: seq<Triple>, head: Value)
    ensures ListItems(triples, head) == Err(KeyError) <==> BreaksOff(Links(triples, RDF_FIRST), Links(triples, RDF_REST), head)
    ensures ListItems(triples, head) != Err(TypeError)
  {
    var firsts, rests := Links(triples, RDF_FIRST), Links(triples, RDF_REST);
    if ListItems(triples, head) == Err(KeyError) {
      var cells := WalkedBroken(firsts, rests, head, {}, []);
    }
    if BreaksOff(firsts, rests, head) {
      var cells :| Broken(firsts, rests, head, cells);
      WalksBroken(firsts, rests, head, {}, [], cells);
    }
    NoTypeError(firsts, rests, head, {}, []);
  }

  ghost predicate BreaksOff(firsts: map<Value, Value>, rests: map<Value, Value>, head: Value) {
    exists cells :: Broken(firsts, rests, head, cells)
  }

  lemma {:induction false} NoTypeError(firsts: map<Value, Value>, rests: map<Value, Value>, node: Value,
                                       seen: set<Value>, out: seq<Value>)
    ensures Walk(firsts, rests, node, seen, out) != Err(TypeError)
    decreases firsts.Keys - seen
  {
    if node != NIL && node in firsts && node !in seen && node in rests {
      NoTypeError(firsts, rests, rests[node], seen + {node}, out + [firsts[node]]);
    }
  }

  // ----- The lists a document writes

  /** A non-empty collection as it was read: its cells are the blank nodes from `first` on. */
  datatype ListRead = ListRead(first: nat, nodes: seq<Node>)

  /** The collections of a term, each after those among its items. */
  function ListsOf(t: Term, env: Env, n: nat): seq<ListRead>
    decreases t
  {
    match t
    case Properties(pairs) => ListsOfPairs(pairs, env, Blank(n + 1), n + 1)
    case Collection(items) =>
      var r := ReadAll(items, env, n);
      ListsOfAll(items, env, n) + if r.nodes == [] then [] else [ListRead(r.minted + 1, r.nodes)]
    case _ => []
  }

  function ListsOfAll(ts: Terms, env: Env, n: nat): seq<ListRead>
    decreases ts
  {
    if ts.NoTerms? then []
    else ListsOf(ts.head, env, n) + ListsOfAll(ts.tail, env, ReadTerm(ts.head, env, n).minted)
  }

  function ListsOfObjects(os: Objects, env: Env, s: Node, p: string, n: nat): seq<ListRead>
    decreases os
  {
    ListsOf(os.item, env, n) +
    if os.OneObject? then [] else ListsOfObjects(os.rest, env, s, p, ReadTerm(os.item, env, n).minted)
  }

  function ListsOfPairs(ps: Pairs, env: Env, s: Node, n: nat): seq<ListRead>
    decreases ps
  {
    var p := VerbIri(ps.verb, env);
    ListsOfObjects(ps.objects, env, s, p, n) +
    if ps.LastPair? then [] else ListsOfPairs(ps.rest, env, s, ReadObjects(ps.objects, env, s, p, n).minted)
  }

  function ListsOfStatement(s: Statement, env: Env, n: nat): seq<ListRead> {
    if !s.Triples? then []
    else
      var head := ReadTerm(s.subject, env, n);
      ListsOf(s.subject, env, n) + ListsOfPairs(s.pairs, env, head.node, head.minted)
  }

  function ListsOfDocument(d: seq<Statement>, env: Env, n: nat): seq<ListRead> {
    if d == [] then []
    else
      ListsOfStatement(d[0], env, n) + ListsOfDocument(d[1..], EnvAfter(d[0], env), ReadStatement(d[0], env, n).minted)
  }

  // ----- Documents that write lists only as collections

  predicate IsLink(p: string) {
    p == RDF_FIRST || p == RDF_REST
  }

  predicate NoLinks(t: Term, env: Env)
    decreases t
  {
    match t
    case Properties(pairs) => NoLinksInPairs(pairs, env)
    case Collection(items) => NoLinksInAll(items, env)
    case _ => true
  }

  predicate NoLinksInAll(ts: Terms, env: Env)
    decreases ts
  {
    ts.ConsTerm? ==> NoLinks(ts.head, env) && NoLinksInAll(ts.tail, env)
  }

  predicate NoLinksInObjects(os: Objects, env: Env)
    decreases os
  {
    NoLinks(os.item, env) && (os.MoreObjects? ==> NoLinksInObjects(os.rest, env))
  }

  predicate NoLinksInPairs(ps: Pairs, env: Env)
    decreases ps
  {
    && !IsLink(VerbIri(ps.verb, env))
    && NoLinksInObjects(ps.objects, env) && (ps.MorePairs? ==> NoLinksInPairs(ps.rest, env))
  }

  /** No verb of the document is `rdf:first` or `rdf:rest`, however it is written. */
  predicate NoLinksIn(d: seq<Statement>, env: Env) {
    d == [] ||
    ( && (d[0].Triples? ==> NoLinks(d[0].subject, env) && NoLinksInPairs(d[0].pairs, env))
      && NoLinksIn(d[1..], EnvAfter(d[0], env)))
  }

  // ----- Only cells link

  /** The `rdf:first` and `rdf:rest` facts. */
  function LinkFacts(facts: seq<Fact>): seq<Fact> {
    if facts == [] then []
    else if IsLink(facts[0].p) then [facts[0]] + LinkFacts(facts[1..])
    else LinkFacts(facts[1..])
  }

  function AllCells(lists: seq<ListRead>): seq<Fact> {
    if lists == [] then [] else Cells(lists[0].first, lists[0].nodes) + AllCells(lists[1..])
  }

  /** The lists take up disjoint stretches of the blank nodes after `lo`, up to `hi`. */
  predicate Laid(lists: seq<ListRead>, lo: nat, hi: nat) {
    if lists == [] then lo <= hi
    else lists[0].first > lo && lists[0].nodes != [] && Laid(lists[1..], lists[0].first + |lists[0].nodes| - 1, hi)
  }

  predicate Linked(facts: seq<Fact>, lists: seq<ListRead>, lo: nat, hi: nat) {
    LinkFacts(facts) == AllCells(lists) && Laid(lists, lo, hi)
  }

  lemma {:induction false} LinkFactsAppend(a: seq<Fact>, b: seq<Fact>)
    ensures LinkFacts(a + b) == LinkFacts(a) + LinkFacts(b)
    decreases |a|
  {
    hide IsLink;
    if a == [] {
      assert a + b == b;
    } else {
      LinkFactsAppend(a[1..], b);
      assert (a + b)[0] == a[0] && (a + b)[1..] == a[1..] + b;
    }
  }

  lemma {:induction false} AllCellsAppend(a: seq<ListRead>, b: seq<ListRead>)
    ensures AllCells(a + b) == AllCells(a) + AllCells(b)
    decreases |a|
  {
    if a == [] {
      assert a + b == b;
    } else {
      AllCellsAppend(a[1..], b);
      assert (a + b)[0] == a[0] && (a + b)[1..] == a[1..] + b;
    }
  }

  lemma {:induction false} LaidAppend(a: seq<ListRead>, b: seq<ListRead>, lo: nat, mid: nat, hi: nat)
    requires Laid(a, lo, mid) && Laid(b, mid, hi)
    ensures Laid(a + b, lo, hi)
    decreases |a|
  {
    if a == [] {
      assert a + b == b;
    } else {
      LaidAppend(a[1..], b, a[0].first + |a[0].nodes| - 1, mid, hi);
      assert (a + b)[0] == a[0] && (a + b)[1..] == a[1..] + b;
    }
  }

  lemma {:induction false} LaidUpTo(lists: seq<ListRead>, lo: nat, mid: nat, hi: nat)
    requires Laid(lists, lo, mid) && mid <= hi
    ensures Laid(lists, lo, hi)
    decreases |lists|
  {
    if lists != [] { LaidUpTo(lists[1..], lists[0].first + |lists[0].nodes| - 1, mid, hi); }
  }

  lemma LinkedThen(a: seq<Fact>, b: seq<Fact>, la: seq<ListRead>, lb: seq<ListRead>,
                   lo: nat, mid: nat, hi: nat)
    requires Linked(a, la, lo, mid) && Linked(b, lb, mid, hi)
    ensures Linked(a + b, la + lb, lo, hi)
  {
    LinkFactsAppend(a, b);
    AllCellsAppend(la, lb);
    LaidAppend(la, lb, lo, mid, hi);
  }

  lemma NothingLinked(n: nat, m: nat)
    requires n <= m
    ensures Linked([], [], n, m)
  {
  }

  lemma OtherFact(facts: seq<Fact>, lists: seq<ListRead>, lo: nat, hi: nat, fact: Fact)
    requires Linked(facts, lists, lo, hi) && !IsLink(fact.p)
    ensures Linked(facts + [fact], lists, lo, hi)
  {
    hide IsLink;
    LinkFactsAppend(facts, [fact]);
    assert LinkFacts([fact]) == [];
  }

  lemma {:induction false} CellsLink(first: nat, nodes: seq<Node>)
    ensures LinkFacts(Cells(first, nodes)) == Cells(first, nodes)
    decreases |nodes|
  {
    if nodes != [] {
      var cells := Cells(first, nodes);
      CellsLink(first + 1, nodes[1..]);
      assert cells[1..][1..] == Cells(first + 1, nodes[1..]);
      assert IsLink(cells[0].p) && IsLink(cells[1].p) && cells[1..][0] == cells[1];
      assert LinkFacts(cells[1..]) == [cells[1]] + LinkFacts(cells[1..][1..]);
    }
  }

  lemma {:induction false} NewList(facts: seq<Fact>, lists: seq<ListRead>, lo: nat, hi: nat, nodes: seq<Node>)
    requires Linked(facts, lists, lo, hi) && nodes != []
    ensures Linked(facts + Cells(hi + 1, nodes), lists + [ListRead(hi + 1, nodes)], lo, hi + |nodes|)
  {
    hide IsLink;
    var l := ListRead(hi + 1, nodes);
    CellsLink(hi + 1, nodes);
    assert [l][1..] == [];
    assert AllCells([l]) == Cells(hi + 1, nodes) + [];
    LinkedThen(facts, Cells(hi + 1, nodes), lists, [l], lo, hi, hi + |nodes|);
  }

  // ----- Reading a document links nothing but its collections

  lemma {:induction false} TermLinked(t: Term, env: Env, n: nat)
    requires NoLinks(t, env)
    ensures var r := ReadTerm(t, env, n); n <= r.minted && Linked(r.facts, ListsOf(t, env, n), n, r.minted)
    decreases t, 0
  {
    hide Linked, IsLink;
    match t
    case Properties(pairs) =>
      PairsLinked(pairs, env, Blank(n + 1), n + 1);
      LinkedEarlier(ReadPairs(pairs, env, Blank(n + 1), n + 1), ListsOf(t, env, n), n);
    case Collection(items) =>
      CollectionLinked(items, env, n);
    case Anon => NothingLinked(n, n + 1);
    case _ => NothingLinked(n, n);
  }

  lemma LinkedEarlier(r: ReadFacts, lists: seq<ListRead>, n: nat)
    requires Linked(r.facts, lists, n + 1, r.minted)
    ensures Linked(r.facts, lists, n, r.minted)
  {
  }

  lemma {:induction false} CollectionLinked(items: Terms, env: Env, n: nat)
    requires NoLinksInAll(items, env)
    ensures var t := Collection(items); var r := ReadTerm(t, env, n);
      n <= r.minted && Linked(r.facts, ListsOf(t, env, n), n, r.minted)
    decreases items, 1
  {
    hide Linked, IsLink, ReadAll, ListsOfAll, NoLinksInAll, Cells;
    ItemsLinked(items, env, n);
    var r := ReadAll(items, env, n);
    if r.nodes == [] {
      assert ListsOfAll(items, env, n) + [] == ListsOfAll(items, env, n);
    } else {
      NewList(r.facts, ListsOfAll(items, env, n), n, r.minted, r.nodes);
    }
  }

  lemma {:induction false} ItemsLinked(ts: Terms, env: Env, n: nat)
    requires NoLinksInAll(ts, env)
    ensures var r := ReadAll(ts, env, n); n <= r.minted && Linked(r.facts, ListsOfAll(ts, env, n), n, r.minted)
    decreases ts, 0
  {
    hide Linked, IsLink;
    if ts.NoTerms? {
      NothingLinked(n, n);
    } else {
      TermLinked(ts.head, env, n);
      var head := ReadTerm(ts.head, env, n);
      ItemsLinked(ts.tail, env, head.minted);
      var tail := ReadAll(ts.tail, env, head.minted);
      LinkedThen(head.facts, tail.facts, ListsOf(ts.head, env, n), ListsOfAll(ts.tail, env, head.minted),
                 n, head.minted, tail.minted);
    }
  }

  lemma {:induction false} ObjectsLinked(os: Objects, env: Env, s: Node, p: string, n: nat)
    requires NoLinksInObjects(os, env) && !IsLink(p)
    ensures var r := ReadObjects(os, env, s, p, n);
      n <= r.minted && Linked(r.facts, ListsOfObjects(os, env, s, p, n), n, r.minted)
    decreases os, 0
  {
    hide Linked, IsLink;
    TermLinked(os.item, env, n);
    var o := ReadTerm(os.item, env, n);
    var lists := ListsOf(os.item, env, n);
    OtherFact(o.facts, lists, n, o.minted, Fact(s, p, o.node));
    if os.OneObject? {
      assert lists + [] == lists;
    } else {
      ObjectsLinked(os.rest, env, s, p, o.minted);
      var rest := ReadObjects(os.rest, env, s, p, o.minted);
      LinkedThen(o.facts + [Fact(s, p, o.node)], rest.facts, lists,
                 ListsOfObjects(os.rest, env, s, p, o.minted), n, o.minted, rest.minted);
    }
  }

  lemma {:induction false} PairsLinked(ps: Pairs, env: Env, s: Node, n: nat)
    requires NoLinksInPairs(ps, env)
    ensures var r := ReadPairs(ps, env, s, n);
      n <= r.minted && Linked(r.facts, ListsOfPairs(ps, env, s, n), n, r.minted)
    decreases ps, 0
  {
    hide Linked, IsLink;
    var p := VerbIri(ps.verb, env);
    ObjectsLinked(ps.objects, env, s, p, n);
    var first, lists := ReadObjects(ps.objects, env, s, p, n), ListsOfObjects(ps.objects, env, s, p, n);
    if ps.LastPair? {
      assert lists + [] == lists;
    } else {
      PairsLinked(ps.rest, env, s, first.minted);
      var rest := ReadPairs(ps.rest, env, s, first.minted);
      LinkedThen(first.facts, rest.facts, lists, ListsOfPairs(ps.rest, env, s, first.minted),
                 n, first.minted, rest.minted);
    }
  }

  lemma StatementLinked(s: Statement, env: Env, n: nat)
    requires s.Triples? ==> NoLinks(s.subject, env) && NoLinksInPairs(s.pairs, env)
    ensures var r := ReadStatement(s, env, n);
      n <= r.minted && Linked(r.facts, ListsOfStatement(s, env, n), n, r.minted)
  {
    hide Linked, IsLink;
    if s.Triples? {
      TermLinked(s.subject, env, n);
      var head := ReadTerm(s.subject, env, n);
      PairsLinked(s.pairs, env, head.node, head.minted);
      var rest := ReadPairs(s.pairs, env, head.node, head.minted);
      LinkedThen(head.facts, rest.facts, ListsOf(s.subject, env, n),
                 ListsOfPairs(s.pairs, env, head.node, head.minted), n, head.minted, rest.minted);
    } else {
      NothingLinked(n, n);
    }
  }

  lemma {:induction false} DocumentLinked(d: seq<Statement>, env: Env, n: nat)
    requires NoLinksIn(d, env)
    ensures var r := ReadDocument(d, env, n);
      n <= r.minted && Linked(r.facts, ListsOfDocument(d, env, n), n, r.minted)
    decreases |d|
  {
    hide Linked, IsLink;
    if d == [] {
      NothingLinked(n, n);
    } else {
      StatementLinked(d[0], env, n);
      var head := ReadStatement(d[0], env, n);
      DocumentLinked(d[1..], EnvAfter(d[0], env), head.minted);
      var rest := ReadDocument(d[1..], EnvAfter(d[0], env), head.minted);
      LinkedThen(head.facts, rest.facts, ListsOfStatement(d[0], env, n),
                 ListsOfDocument(d[1..], EnvAfter(d[0], env), head.minted), n, head.minted, rest.minted);
    }
  }

  // ----- Looking a cell up in the whole document

  lemma {:induction false} LinkFound(triples: seq<Triple>, p: string, s: Value, o: Value)
    requires Triple(s, TextValue(p), o) in triples
    requires forall t :: t in triples && t.p == TextValue(p) && t.s == s ==> t.o == o
    ensures s in Links(triples, p) && Links(triples, p)[s] == o
    decreases |triples|
  {
    var init, last := triples[..|triples| - 1], triples[|triples| - 1];
    assert triples == init + [last];
    if last.p == TextValue(p) && last.s == s {
      assert last in triples;
    } else {
      LinkFound(init, p, s, o);
    }
  }

  lemma {:induction false} WrittenHas(facts: seq<Fact>, f: Fact)
    requires f in facts
    ensures Triple(NodeValue(f.s), TextValue(f.p), NodeValue(f.o)) in Written(facts)
  {
    if facts[0] != f { WrittenHas(facts[1..], f); }
  }

  lemma {:induction false} WrittenFrom(facts: seq<Fact>, t: Triple) returns (f: Fact)
    requires t in Written(facts)
    ensures f in facts && t == Triple(NodeValue(f.s), TextValue(f.p), NodeValue(f.o))
  {
    f := facts[0];
    if t != Written(facts)[0] { f := WrittenFrom(facts[1..], t); }
  }

  lemma {:induction false} LinkFactsMembers(facts: seq<Fact>, f: Fact)
    requires IsLink(f.p)
    ensures f in facts <==> f in LinkFacts(facts)
  {
    if facts != [] { LinkFactsMembers(facts[1..], f); }
  }

  /** The `rdf:first` or `rdf:rest` fact of the j-th cell. */
  function CellFact(l: ListRead, j: nat, p: string): Fact
    requires j < |l.nodes|
  {
    Fact(Blank(l.first + j), p,
         if p == RDF_FIRST then l.nodes[j] else if j + 1 < |l.nodes| then Blank(l.first + j + 1) else TextNode(RDF_NIL))
  }

  lemma {:induction false} CellIn(l: ListRead, j: nat, p: string)
    requires j < |l.nodes| && IsLink(p)
    ensures CellFact(l, j, p) in Cells(l.first, l.nodes)
    decreases j
  {
    var cells := Cells(l.first, l.nodes);
    if j == 0 {
      assert cells[0] == CellFact(l, 0, RDF_FIRST) && cells[1] == CellFact(l, 0, RDF_REST);
    } else {
      CellIn(ListRead(l.first + 1, l.nodes[1..]), j - 1, p);
    }
  }

  lemma {:induction false} CellOf(l: ListRead, f: Fact) returns (j: nat)
    requires f in Cells(l.first, l.nodes)
    ensures j < |l.nodes| && IsLink(f.p) && f == CellFact(l, j, f.p)
    decreases |l.nodes|
  {
    var cells := Cells(l.first, l.nodes);
    j := 0;
    if f != cells[0] && f != cells[1] {
      assert cells == cells[..2] + Cells(l.first + 1, l.nodes[1..]);
      j := CellOf(ListRead(l.first + 1, l.nodes[1..]), f);
      j := j + 1;
    }
  }

  lemma {:induction false} CellsIn(lists: seq<ListRead>, a: nat, f: Fact)
    requires a < |lists| && f in Cells(lists[a].first, lists[a].nodes)
    ensures f in AllCells(lists)
    decreases a
  {
    hide Cells;
    if a > 0 { CellsIn(lists[1..], a - 1, f); }
  }

  lemma {:induction false} CellsFrom(lists: seq<ListRead>, f: Fact) returns (a: nat)
    requires f in AllCells(lists)
    ensures a < |lists| && f in Cells(lists[a].first, lists[a].nodes)
    decreases |lists|
  {
    hide Cells;
    a := 0;
    if f !in Cells(lists[0].first, lists[0].nodes) {
      a := CellsFrom(lists[1..], f);
      a := a + 1;
    }
  }

  lemma {:induction false} LaidAfter(lists: seq<ListRead>, lo: nat, hi: nat, a: nat)
    requires Laid(lists, lo, hi) && a < |lists|
    ensures lists[a].first > lo
    decreases a
  {
    if a > 0 { LaidAfter(lists[1..], lists[0].first + |lists[0].nodes| - 1, hi, a - 1); }
  }

  /** Two lists share no cell. */
  lemma {:induction false} LaidApart(lists: seq<ListRead>, lo: nat, hi: nat, a: nat, b: nat)
    requires Laid(lists, lo, hi) && a < b < |lists|
    ensures lists[a].first + |lists[a].nodes| <= lists[b].first
    decreases a
  {
    var next := lists[0].first + |lists[0].nodes| - 1;
    if a == 0 {
      LaidAfter(lists[1..], next, hi, b - 1);
    } else {
      LaidApart(lists[1..], next, hi, a - 1, b - 1);
    }
  }

  lemma CellUnique(facts: seq<Fact>, lists: seq<ListRead>, lo: nat, hi: nat, a: nat, j: nat, p: string,
                   t: Triple)
    requires Linked(facts, lists, lo, hi) && IsLink(p) && a < |lists| && j < |lists[a].nodes|
    requires t in Written(facts) && t.p == TextValue(p) && t.s == Label(lists[a].first + j)
    ensures t.o == NodeValue(CellFact(lists[a], j, p).o)
  {
    hide IsLink, Cells, Label;
    var f := WrittenFrom(facts, t);
    LinkFactsMembers(facts, f);
    var b := CellsFrom(lists, f);
    var k := CellOf(lists[b], f);
    LabelInjective(lists[a].first + j, lists[b].first + k);
    if a < b { LaidApart(lists, lo, hi, a, b); }
    if b < a { LaidApart(lists, lo, hi, b, a); }
  }

  lemma CellFound(facts: seq<Fact>, lists: seq<ListRead>, lo: nat, hi: nat, a: nat, j: nat, p: string)
    requires Linked(facts, lists, lo, hi) && IsLink(p) && a < |lists| && j < |lists[a].nodes|
    ensures var links, s := Links(Written(facts), p), Label(lists[a].first + j);
      s in links && links[s] == NodeValue(CellFact(lists[a], j, p).o)
  {
    hide IsLink, Cells, Label, Links;
    var f := CellFact(lists[a], j, p);
    CellIn(lists[a], j, p);
    CellsIn(lists, a, f);
    LinkFactsMembers(facts, f);
    WrittenHas(facts, f);
    forall t | t in Written(facts) && t.p == TextValue(p) && t.s == NodeValue(f.s)
      ensures t.o == NodeValue(f.o)
    {
      CellUnique(facts, lists, lo, hi, a, j, p, t);
    }
    LinkFound(Written(facts), p, NodeValue(f.s), NodeValue(f.o));
  }

  lemma LabelNotNil(n: nat)
    ensures Label(n) != NIL && RDF_FIRST != RDF_REST
  {
    var text, nil := "_:b" + Decimal(n), "http://www.w3.org/1999/02/22-rdf-syntax-ns#nil";
    DecimalDigits(n);
    assert IsDigit(text[|text| - 1]) && nil[|nil| - 1] == 'l';
    assert |RDF_FIRST| != |RDF_REST|;
  }

  /** Where the j-th rest of a list points. */
  function CellOrNil(l: ListRead, j: nat): Value {
    if j < |l.nodes| then Label(l.first + j) else NIL
  }

  lemma {:induction false} CellsChain(facts: seq<Fact>, lists: seq<ListRead>, lo: nat, hi: nat, a: nat, j: nat)
    requires Linked(facts, lists, lo, hi) && a < |lists| && j <= |lists[a].nodes|
    ensures Chain(Links(Written(facts), RDF_FIRST), Links(Written(facts), RDF_REST),
                  CellOrNil(lists[a], j), NodeValues(lists[a].nodes[j..]))
    decreases |lists[a].nodes| - j
  {
    hide Linked, Links, Label, Cells;
    var nodes := lists[a].nodes;
    if j < |nodes| {
      CellFound(facts, lists, lo, hi, a, j, RDF_FIRST);
      CellFound(facts, lists, lo, hi, a, j, RDF_REST);
      LabelNotNil(lists[a].first + j);
      CellsChain(facts, lists, lo, hi, a, j + 1);
      assert nodes[j..][0] == nodes[j] && nodes[j..][1..] == nodes[j + 1..];
      assert NodeValues(nodes[j..])[1..] == NodeValues(nodes[j + 1..]);
    }
  }

  /** Of a printed document that writes lists only as `( ... )`, every collection is read back whole: from
      its head, `ordered_list` over all triples of the document returns exactly its items, in order. */
  lemma CollectionsReadBack(d: seq<Statement>, l: ListRead)
    requires DocumentOk(d) && DocumentScoped(d, NO_ENV) && NoLinksIn(d, NO_ENV)
    requires l in ListsOfDocument(d, NO_ENV, 0)
    ensures ParseDocument(PrintDocument(d), Initial()).Ok?
    ensures ListItems(ParseDocument(PrintDocument(d), Initial()).value.triples, Label(l.first)) == Ok(NodeValues(l.nodes))
  {
    hide Linked, Links, Label, Cells, ReadDocument, Chain;
    var facts := ParsedFacts(d);
    DocumentLinked(d, NO_ENV, 0);
    var lists := ListsOfDocument(d, NO_ENV, 0);
    var a :| 0 <= a < |lists| && lists[a] == l;
    CellsChain(facts, lists, 0, ReadDocument(d, NO_ENV, 0).minted, a, 0);
    DocumentListsLaid(d, a);
    assert l.nodes[0..] == l.nodes;
    AcceptsExactlyChains(Written(facts), Label(l.first), NodeValues(l.nodes));
  }

  lemma DocumentListsLaid(d: seq<Statement>, a: nat)
    requires NoLinksIn(d, NO_ENV) && a < |ListsOfDocument(d, NO_ENV, 0)|
    ensures ListsOfDocument(d, NO_ENV, 0)[a].nodes != []
  {
    DocumentLinked(d, NO_ENV, 0);
    LaidFull(ListsOfDocument(d, NO_ENV, 0), 0, ReadDocument(d, NO_ENV, 0).minted, a);
  }

  lemma {:induction false} LaidFull(lists: seq<ListRead>, lo: nat, hi: nat, a: nat)
    requires Laid(lists, lo, hi) && a < |lists|
    ensures lists[a].nodes != []
    decreases a
  {
    if a > 0 { LaidFull(lists[1..], lists[0].first + |lists[0].nodes| - 1, hi, a - 1); }
  }

  lemma ParsedFacts(d: seq<Statement>) returns (facts: seq<Fact>)
    requires DocumentOk(d) && DocumentScoped(d, NO_ENV)
    ensures facts == ReadDocument(d, NO_ENV, 0).facts
    ensures ParseDocument(PrintDocument(d), Initial()).Ok?
    ensures ParseDocument(PrintDocument(d), Initial()).value.triples == Written(facts)
  {
    facts := ReadDocument(d, NO_ENV, 0).facts;
    DocumentParses(PrintDocument(d), Initial(), d, NO_ENV);
    assert [] + Written(facts) == Written(facts);
  }

  /** The head of a non-empty collection is its first cell, and the empty one is nil. */
  lemma HeadOfCollection(items: Terms, env: Env, n: nat)
    ensures var nodes, r := ReadAll(items, env, n).nodes, ReadTerm(Collection(items), env, n);
      && (nodes == [] ==> r.node == TextNode(RDF_NIL))
      && (nodes != [] ==> var l := ListsOf(Collection(items), env, n);
          l != [] && l[|l| - 1].nodes == nodes && r.node == Blank(l[|l| - 1].first))
  {
  }
}
