/** The labels of blank nodes share their spelling with IRIs: `_:b1` may be either. What a triple list still
    tells of the document it came from. */
module TurtleNaming {
  import opened Text
  import opened TurtleSyntax
  import opened TurtleParser
  import opened TurtleMeaning
  import opened TurtleReading
  import opened TurtleRoundTrip

  /** The text of one of the first `n` labels. */
  ghost predicate IsLabel(v: Value, n: nat) {
    exists k :: 1 <= k <= n && v == Label(k)
  }

  // ----- Documents that write an IRI spelled like a label

  ghost predicate TermWrites(t: Term, env: Env, n: nat)
    decreases t
  {
    match t
    case IriTerm(i) => IsLabel(TextValue(Resolve(i, env)), n)
    case Properties(pairs) => PairsWrite(pairs, env, n)
    case Collection(items) => TermsWrite(items, env, n)
    case _ => false
  }

  ghost predicate TermsWrite(ts: Terms, env: Env, n: nat)
    decreases ts
  {
    ts.ConsTerm? && (TermWrites(ts.head, env, n) || TermsWrite(ts.tail, env, n))
  }

  ghost predicate ObjectsWrite(os: Objects, env: Env, n: nat)
    decreases os
  {
    TermWrites(os.item, env, n) || (os.MoreObjects? && ObjectsWrite(os.rest, env, n))
  }

  ghost predicate PairsWrite(ps: Pairs, env: Env, n: nat)
    decreases ps
  {
    ObjectsWrite(ps.objects, env, n) || (ps.MorePairs? && PairsWrite(ps.rest, env, n))
  }

  ghost predicate StatementWrites(s: Statement, env: Env, n: nat) {
    s.Triples? && (TermWrites(s.subject, env, n) || PairsWrite(s.pairs, env, n))
  }

  /** Some IRI written as a subject, object or list item resolves to the text of one of the first `n` labels. */
  ghost predicate WritesLabel(d: seq<Statement>, env: Env, n: nat)
    decreases |d|
  {
    d != [] && (StatementWrites(d[0], env, n) || WritesLabel(d[1..], EnvAfter(d[0], env), n))
  }

  ghost predicate Mistaken(x: Node, n: nat) {
    x.Known? && IsLabel(x.value, n)
  }

  ghost predicate AnyMistaken(fs: seq<Fact>, n: nat) {
    exists i :: 0 <= i < |fs| && (Mistaken(fs[i].s, n) || Mistaken(fs[i].o, n))
  }

  ghost predicate AnyNodeMistaken(xs: seq<Node>, n: nat) {
    exists i :: 0 <= i < |xs| && Mistaken(xs[i], n)
  }

  lemma MistakenAppend(a: seq<Fact>, b: seq<Fact>, n: nat)
    ensures AnyMistaken(a + b, n) <==> AnyMistaken(a, n) || AnyMistaken(b, n)
  {
    hide Mistaken;
    if AnyMistaken(a, n) {
      var i :| 0 <= i < |a| && (Mistaken(a[i].s, n) || Mistaken(a[i].o, n));
      assert (a + b)[i] == a[i];
    }
    if AnyMistaken(b, n) {
      var i :| 0 <= i < |b| && (Mistaken(b[i].s, n) || Mistaken(b[i].o, n));
      assert (a + b)[|a| + i] == b[i];
    }
    if AnyMistaken(a + b, n) {
      var i :| 0 <= i < |a + b| && (Mistaken((a + b)[i].s, n) || Mistaken((a + b)[i].o, n));
      if i >= |a| { assert b[i - |a|] == (a + b)[i]; }
    }
  }

  lemma MistakenOne(f: Fact, n: nat)
    ensures AnyMistaken([f], n) <==> Mistaken(f.s, n) || Mistaken(f.o, n)
  {
    assert [f][0] == f;
  }

  lemma NodesMistaken(x: Node, xs: seq<Node>, n: nat)
    ensures AnyNodeMistaken([x] + xs, n) <==> Mistaken(x, n) || AnyNodeMistaken(xs, n)
  {
    hide Mistaken;
    assert ([x] + xs)[0] == x;
    if AnyNodeMistaken(xs, n) {
      var i :| 0 <= i < |xs| && Mistaken(xs[i], n);
      assert ([x] + xs)[i + 1] == xs[i];
    }
  }

  /** No literal, no boolean and not the end of a list is spelled like a label. */
  lemma NotLabels(n: nat)
    ensures forall long, body :: !IsLabel(TextValue(LiteralText(long, body)), n)
    ensures forall b :: !IsLabel(BoolValue(b), n)
    ensures !IsLabel(TextValue(RDF_NIL), n)
  {
    forall long, body
      ensures !IsLabel(TextValue(LiteralText(long, body)), n)
    {
      assert LiteralText(long, body)[0] == '"';
      assert forall k: nat :: ("_:b" + Decimal(k))[0] == '_';
    }
    NilNoLabel(n);
  }

  lemma NilNoLabel(n: nat)
    ensures !IsLabel(TextValue(RDF_NIL), n)
  {
    forall k | 1 <= k <= n
      ensures Label(k) != TextValue(RDF_NIL)
    {
      var text := "_:b" + Decimal(k);
      DecimalDigits(k);
      assert text[|text| - 1] == Decimal(k)[|Decimal(k)| - 1];
      assert RDF_NIL[|RDF_NIL| - 1] == 'l';
    }
  }

  lemma {:induction false} CellsMistaken(first: nat, nodes: seq<Node>, n: nat)
    ensures AnyMistaken(Cells(first, nodes), n) <==> AnyNodeMistaken(nodes, n)
    decreases |nodes|
  {
    if nodes != [] {
      NotLabels(n);
      var rest := Cells(first + 1, nodes[1..]);
      var a := Fact(Blank(first), RDF_FIRST, nodes[0]);
      var b := Fact(Blank(first), RDF_REST, if |nodes| > 1 then Blank(first + 1) else TextNode(RDF_NIL));
      assert Cells(first, nodes) == [a] + ([b] + rest);
      hide IsLabel;
      CellsMistaken(first + 1, nodes[1..], n);
      MistakenAppend([a], [b] + rest, n);
      MistakenAppend([b], rest, n);
      MistakenOne(a, n);
      MistakenOne(b, n);
      assert nodes == [nodes[0]] + nodes[1..];
      NodesMistaken(nodes[0], nodes[1..], n);
    }
  }

  lemma {:induction false} TermMistaken(t: Term, env: Env, m: nat, n: nat)
    ensures var r := ReadTerm(t, env, m);
      TermWrites(t, env, n) <==> Mistaken(r.node, n) || AnyMistaken(r.facts, n)
    decreases t, 1
  {
    hide IsLabel;
    NotLabels(n);
    match t
    case Properties(pairs) => PairsMistaken(pairs, env, Blank(m + 1), m + 1, n);
    case Collection(items) => CollectionMistaken(items, env, m, n);
    case _ =>
  }

  lemma {:induction false} CollectionMistaken(items: Terms, env: Env, m: nat, n: nat)
    ensures var r := ReadTerm(Collection(items), env, m);
      TermsWrite(items, env, n) <==> Mistaken(r.node, n) || AnyMistaken(r.facts, n)
    decreases items, 2
  {
    hide IsLabel, AnyMistaken;
    NotLabels(n);
    ItemsMistaken(items, env, m, n);
    var r := ReadAll(items, env, m);
    if r.nodes != [] {
      CellsMistaken(r.minted + 1, r.nodes, n);
      MistakenAppend(r.facts, Cells(r.minted + 1, r.nodes), n);
    }
  }

  lemma {:induction false} ItemsMistaken(ts: Terms, env: Env, m: nat, n: nat)
    ensures var r := ReadAll(ts, env, m);
      TermsWrite(ts, env, n) <==> AnyNodeMistaken(r.nodes, n) || AnyMistaken(r.facts, n)
    decreases ts, 0
  {
    hide IsLabel;
    if ts.ConsTerm? {
      var head := ReadTerm(ts.head, env, m);
      TermMistaken(ts.head, env, m, n);
      ItemsMistaken(ts.tail, env, head.minted, n);
      var tail := ReadAll(ts.tail, env, head.minted);
      hide AnyMistaken, AnyNodeMistaken;
      MistakenAppend(head.facts, tail.facts, n);
      NodesMistaken(head.node, tail.nodes, n);
    }
  }

  lemma {:induction false} ObjectsMistaken(os: Objects, env: Env, s: Node, p: string, m: nat, n: nat)
    ensures ObjectsWrite(os, env, n) || Mistaken(s, n) <==> AnyMistaken(ReadObjects(os, env, s, p, m).facts, n)
    decreases os, 0
  {
    hide IsLabel, AnyMistaken;
    var o := ReadTerm(os.item, env, m);
    TermMistaken(os.item, env, m, n);
    MistakenAppend(o.facts, [Fact(s, p, o.node)], n);
    MistakenOne(Fact(s, p, o.node), n);
    if os.MoreObjects? {
      ObjectsMistaken(os.rest, env, s, p, o.minted, n);
      MistakenAppend(o.facts + [Fact(s, p, o.node)], ReadObjects(os.rest, env, s, p, o.minted).facts, n);
    }
  }

  lemma {:induction false} PairsMistaken(ps: Pairs, env: Env, s: Node, m: nat, n: nat)
    ensures PairsWrite(ps, env, n) || Mistaken(s, n) <==> AnyMistaken(ReadPairs(ps, env, s, m).facts, n)
    decreases ps, 0
  {
    hide IsLabel, AnyMistaken;
    var p := VerbIri(ps.verb, env);
    ObjectsMistaken(ps.objects, env, s, p, m, n);
    if ps.MorePairs? {
      var first := ReadObjects(ps.objects, env, s, p, m);
      PairsMistaken(ps.rest, env, s, first.minted, n);
      MistakenAppend(first.facts, ReadPairs(ps.rest, env, s, first.minted).facts, n);
    }
  }

  lemma {:induction false} DocumentMistaken(d: seq<Statement>, env: Env, m: nat, n: nat)
    ensures WritesLabel(d, env, n) <==> AnyMistaken(ReadDocument(d, env, m).facts, n)
    decreases |d|
  {
    if d != [] {
      var head := ReadStatement(d[0], env, m);
      StatementMistaken(d[0], env, m, n);
      DocumentMistaken(d[1..], EnvAfter(d[0], env), head.minted, n);
      MistakenAppend(head.facts, ReadDocument(d[1..], EnvAfter(d[0], env), head.minted).facts, n);
    }
  }

  lemma StatementMistaken(s: Statement, env: Env, m: nat, n: nat)
    ensures StatementWrites(s, env, n) <==> AnyMistaken(ReadStatement(s, env, m).facts, n)
  {
    if s.Triples? {
      hide IsLabel, AnyMistaken;
      var head := ReadTerm(s.subject, env, m);
      TermMistaken(s.subject, env, m, n);
      PairsMistaken(s.pairs, env, head.node, head.minted, n);
      MistakenAppend(head.facts, ReadPairs(s.pairs, env, head.node, head.minted).facts, n);
    }
  }

  // ----- Every label minted is written

  ghost predicate Occurs(fs: seq<Fact>, k: nat) {
    exists i :: 0 <= i < |fs| && (fs[i].s == Blank(k) || fs[i].o == Blank(k))
  }

  lemma OccursAppend(a: seq<Fact>, b: seq<Fact>)
    ensures forall k :: Occurs(a + b, k) <==> Occurs(a, k) || Occurs(b, k)
  {
    forall k
      ensures Occurs(a + b, k) <==> Occurs(a, k) || Occurs(b, k)
    {
      if Occurs(a, k) {
        var i :| 0 <= i < |a| && (a[i].s == Blank(k) || a[i].o == Blank(k));
        assert (a + b)[i] == a[i];
      }
      if Occurs(b, k) {
        var i :| 0 <= i < |b| && (b[i].s == Blank(k) || b[i].o == Blank(k));
        assert (a + b)[|a| + i] == b[i];
      }
      if Occurs(a + b, k) {
        var i :| 0 <= i < |a + b| && ((a + b)[i].s == Blank(k) || (a + b)[i].o == Blank(k));
        if i >= |a| { assert b[i - |a|] == (a + b)[i]; }
      }
    }
  }

  lemma OccursOne(f: Fact)
    ensures forall k :: Occurs([f], k) <==> f.s == Blank(k) || f.o == Blank(k)
  {
    assert [f][0] == f;
  }

  /** The labels of the cells, and the items that are blank. */
  ghost predicate Filled(fs: seq<Fact>, first: nat, nodes: seq<Node>) {
    forall k: nat :: first <= k < first + |nodes| || Blank(k) in nodes ==> Occurs(fs, k)
  }

  lemma {:induction false} CellsOccur(first: nat, nodes: seq<Node>)
    ensures Filled(Cells(first, nodes), first, nodes)
    decreases |nodes|
  {
    hide Occurs;
    if nodes != [] {
      CellsOccur(first + 1, nodes[1..]);
      forall k: nat | first <= k < first + |nodes| || Blank(k) in nodes
        ensures Occurs(Cells(first, nodes), k)
      {
        var rest := CellsCons(first, nodes, k);
        if !(k == first || nodes[0] == Blank(k)) {
          assert nodes == [nodes[0]] + nodes[1..];
          assert Occurs(rest, k);
        }
      }
    }
  }

  /** The first cell holds its own label and the first item. */
  lemma CellsCons(first: nat, nodes: seq<Node>, k: nat) returns (rest: seq<Fact>)
    requires nodes != []
    ensures rest == Cells(first + 1, nodes[1..])
    ensures k == first || nodes[0] == Blank(k) || Occurs(rest, k) ==> Occurs(Cells(first, nodes), k)
  {
    rest := Cells(first + 1, nodes[1..]);
    var cells := Cells(first, nodes);
    var pair := cells[..2];
    assert cells == pair + rest;
    OccursAppend(pair, rest);
    assert cells[0] == Fact(Blank(first), RDF_FIRST, nodes[0]);
    if k == first || nodes[0] == Blank(k) {
      assert cells[0].s == Blank(k) || cells[0].o == Blank(k);
    }
  }

  /** All labels minted in between. */
  ghost predicate AllOccur(fs: seq<Fact>, m: nat, n: nat) {
    forall k: nat :: m < k <= n ==> Occurs(fs, k)
  }

  /** All of them, the node's own perhaps only in the node. */
  ghost predicate AllHere(x: Node, fs: seq<Fact>, m: nat, n: nat) {
    forall k: nat :: m < k <= n ==> x == Blank(k) || Occurs(fs, k)
  }

  ghost predicate HasSubject(x: Node, fs: seq<Fact>) {
    x.Blank? ==> Occurs(fs, x.n)
  }

  lemma AllOccurThen(a: seq<Fact>, b: seq<Fact>, m: nat, mid: nat, n: nat)
    requires AllOccur(a, m, mid) && AllOccur(b, mid, n)
    ensures AllOccur(a + b, m, n)
    ensures forall x :: HasSubject(x, a) || HasSubject(x, b) ==> HasSubject(x, a + b)
  {
    hide Occurs;
    OccursAppend(a, b);
    forall k: nat | m < k <= n
      ensures Occurs(a + b, k)
    {
      if k <= mid { assert Occurs(a, k); } else { assert Occurs(b, k); }
    }
  }

  lemma AllHereThen(x: Node, a: seq<Fact>, b: seq<Fact>, m: nat, mid: nat, n: nat)
    requires AllHere(x, a, m, mid) && AllOccur(b, mid, n) && HasSubject(x, b)
    ensures AllOccur(a + b, m, n)
  {
    hide Occurs;
    OccursAppend(a, b);
    forall k: nat | m < k <= n
      ensures Occurs(a + b, k)
    {
      if k <= mid { assert x == Blank(k) || Occurs(a, k); }
      if x == Blank(k) || k > mid { assert Occurs(b, k); }
    }
  }

  lemma {:induction false} TermOccurs(t: Term, env: Env, m: nat)
    ensures var r := ReadTerm(t, env, m); AllHere(r.node, r.facts, m, r.minted)
    decreases t, 1
  {
    hide Occurs;
    match t
    case Properties(pairs) => PairsOccur(pairs, env, Blank(m + 1), m + 1);
    case Collection(items) => CollectionOccurs(items, env, m);
    case _ =>
  }

  lemma {:induction false} CollectionOccurs(items: Terms, env: Env, m: nat)
    ensures var r := ReadTerm(Collection(items), env, m); AllOccur(r.facts, m, r.minted)
    decreases items, 2
  {
    hide Occurs;
    ItemsOccur(items, env, m);
    var r := ReadAll(items, env, m);
    if r.nodes != [] {
      CellsOccur(r.minted + 1, r.nodes);
      ListOccurs(r, m);
    }
  }

  ghost predicate AllAmong(xs: seq<Node>, fs: seq<Fact>, m: nat, n: nat) {
    forall k: nat :: m < k <= n ==> Blank(k) in xs || Occurs(fs, k)
  }

  lemma ListOccurs(r: ReadItems, m: nat)
    requires AllAmong(r.nodes, r.facts, m, r.minted)
    requires Filled(Cells(r.minted + 1, r.nodes), r.minted + 1, r.nodes)
    ensures AllOccur(r.facts + Cells(r.minted + 1, r.nodes), m, r.minted + |r.nodes|)
  {
    hide Occurs;
    var cells := Cells(r.minted + 1, r.nodes);
    OccursAppend(r.facts, cells);
    forall k: nat | m < k <= r.minted + |r.nodes|
      ensures Occurs(r.facts + cells, k)
    {
      if k <= r.minted { assert Blank(k) in r.nodes || Occurs(r.facts, k); }
      if k > r.minted || Blank(k) in r.nodes { assert Occurs(cells, k); }
    }
  }

  lemma {:induction false} ItemsOccur(ts: Terms, env: Env, m: nat)
    ensures var r := ReadAll(ts, env, m); AllAmong(r.nodes, r.facts, m, r.minted)
    decreases ts, 0
  {
    hide Occurs;
    if ts.ConsTerm? {
      var head := ReadTerm(ts.head, env, m);
      TermOccurs(ts.head, env, m);
      ItemsOccur(ts.tail, env, head.minted);
      AmongThen(head, ReadAll(ts.tail, env, head.minted), m);
    }
  }

  lemma AmongThen(head: Read, tail: ReadItems, m: nat)
    requires AllHere(head.node, head.facts, m, head.minted) && AllAmong(tail.nodes, tail.facts, head.minted, tail.minted)
    ensures AllAmong([head.node] + tail.nodes, head.facts + tail.facts, m, tail.minted)
  {
    hide Occurs;
    OccursAppend(head.facts, tail.facts);
    forall k: nat | m < k <= tail.minted
      ensures Blank(k) in [head.node] + tail.nodes || Occurs(head.facts + tail.facts, k)
    {
      if k <= head.minted {
        assert head.node == Blank(k) || Occurs(head.facts, k);
      } else {
        assert Blank(k) in tail.nodes || Occurs(tail.facts, k);
      }
    }
  }

  lemma {:induction false} ObjectsOccur(os: Objects, env: Env, s: Node, p: string, m: nat)
    ensures var r := ReadObjects(os, env, s, p, m); AllOccur(r.facts, m, r.minted) && HasSubject(s, r.facts)
    decreases os, 0
  {
    hide Occurs, AllOccur, AllHere, HasSubject;
    var o := ReadTerm(os.item, env, m);
    TermOccurs(os.item, env, m);
    FactOccurs(o, Fact(s, p, o.node), m);
    if os.MoreObjects? {
      ObjectsOccur(os.rest, env, s, p, o.minted);
      var rest := ReadObjects(os.rest, env, s, p, o.minted);
      AllOccurThen(o.facts + [Fact(s, p, o.node)], rest.facts, m, o.minted, rest.minted);
    }
  }

  lemma FactOccurs(o: Read, f: Fact, m: nat)
    requires AllHere(o.node, o.facts, m, o.minted) && f.o == o.node
    ensures AllOccur(o.facts + [f], m, o.minted) && HasSubject(f.s, o.facts + [f])
  {
    hide Occurs;
    OccursAppend(o.facts, [f]);
    OccursOne(f);
    forall k: nat | m < k <= o.minted
      ensures Occurs(o.facts + [f], k)
    {
      assert o.node == Blank(k) || Occurs(o.facts, k);
    }
  }

  lemma {:induction false} PairsOccur(ps: Pairs, env: Env, s: Node, m: nat)
    ensures var r := ReadPairs(ps, env, s, m); AllOccur(r.facts, m, r.minted) && HasSubject(s, r.facts)
    decreases ps, 0
  {
    hide Occurs, AllOccur, HasSubject;
    var p := VerbIri(ps.verb, env);
    ObjectsOccur(ps.objects, env, s, p, m);
    if ps.MorePairs? {
      var first := ReadObjects(ps.objects, env, s, p, m);
      PairsOccur(ps.rest, env, s, first.minted);
      var rest := ReadPairs(ps.rest, env, s, first.minted);
      AllOccurThen(first.facts, rest.facts, m, first.minted, rest.minted);
    }
  }

  lemma StatementOccurs(s: Statement, env: Env, m: nat)
    ensures AllOccur(ReadStatement(s, env, m).facts, m, ReadStatement(s, env, m).minted)
  {
    if s.Triples? {
      hide AllOccur, AllHere, HasSubject;
      var x := ReadTerm(s.subject, env, m);
      TermOccurs(s.subject, env, m);
      PairsOccur(s.pairs, env, x.node, x.minted);
      var rest := ReadPairs(s.pairs, env, x.node, x.minted);
      AllHereThen(x.node, x.facts, rest.facts, m, x.minted, rest.minted);
    }
  }

  lemma {:induction false} DocumentOccurs(d: seq<Statement>, env: Env, m: nat)
    ensures AllOccur(ReadDocument(d, env, m).facts, m, ReadDocument(d, env, m).minted)
    decreases |d|
  {
    if d != [] {
      hide AllOccur;
      var head := ReadStatement(d[0], env, m);
      StatementOccurs(d[0], env, m);
      DocumentOccurs(d[1..], EnvAfter(d[0], env), head.minted);
      var rest := ReadDocument(d[1..], EnvAfter(d[0], env), head.minted);
      AllOccurThen(head.facts, rest.facts, m, head.minted, rest.minted);
    }
  }

  // ----- The naming of a document's nodes

  /** The nodes of a document: the values written in its facts, and the places of its blank nodes. */
  ghost predicate IsNode(names: seq<Place>, m: multiset<PlacedFact>, x: PlacedNode) {
    match x
    case Fixed(_) => exists f :: f in m && (f.s == x || f.o == x)
    case AtPlace(p) => p in names
  }

  /** How the parser writes a node: a blank one as its label. */
  ghost predicate NamedBy(names: seq<Place>, x: PlacedNode, v: Value) {
    match x
    case Fixed(w) => v == w
    case AtPlace(p) => exists k :: 1 <= k <= |names| && names[k - 1] == p && v == Label(k)
  }

  ghost predicate NamingInjective(names: seq<Place>, m: multiset<PlacedFact>) {
    forall x, y, v :: IsNode(names, m, x) && IsNode(names, m, y) && NamedBy(names, x, v) && NamedBy(names, y, v) ==> x == y
  }

  /** What `ParsePrinted` gives for a document, told by its facts. */
  ghost predicate ReadAs(d: seq<Statement>, st: State, names: seq<Place>, facts: seq<Fact>) {
    && st.triples == Written(facts) && st.minted == |names| && Distinct(names)
    && FactsMinted(facts, |names|) && multiset(PlacedFacts(names, facts)) == DocumentMeans(d, NO_ENV, [])
    && (WritesLabel(d, NO_ENV, |names|) <==> AnyMistaken(facts, |names|))
    && (forall n :: WritesLabel(d, NO_ENV, n) <==> AnyMistaken(facts, n))
    && (forall k :: 1 <= k <= |names| ==> Occurs(facts, k))
  }

  lemma ReadsAs(d: seq<Statement>) returns (st: State, names: seq<Place>, facts: seq<Fact>)
    requires DocumentOk(d) && DocumentScoped(d, NO_ENV)
    ensures ParseDocument(PrintDocument(d), Initial()) == Ok(st) && ReadAs(d, st, names, facts)
  {
    hide DocumentOk, DocumentScoped, ParseDocument, PrintDocument, ReadDocument, DocumentMeans, WritesLabel, Occurs, AnyMistaken;
    DocumentParses(PrintDocument(d), Initial(), d, NO_ENV);
    st := ParseDocument(PrintDocument(d), Initial()).value;
    names := DocumentPlaced(d, NO_ENV, [], []);
    DocumentMinted(d, NO_ENV, 0);
    facts := ReadDocument(d, NO_ENV, 0).facts;
    assert [] + Written(facts) == Written(facts);
    DocumentOccurs(d, NO_ENV, 0);
    forall n
      ensures WritesLabel(d, NO_ENV, n) <==> AnyMistaken(facts, n)
    {
      DocumentMistaken(d, NO_ENV, 0, n);
    }
  }

  lemma FactOf(names: seq<Place>, facts: seq<Fact>, f: PlacedFact) returns (i: nat)
    requires f in multiset(PlacedFacts(names, facts))
    ensures i < |facts| && f == FactPlaced(names, facts[i])
  {
    assert f in PlacedFacts(names, facts);
    i :| 0 <= i < |facts| && PlacedFacts(names, facts)[i] == f;
  }

  lemma PlacedIn(names: seq<Place>, facts: seq<Fact>, i: nat)
    requires i < |facts|
    ensures FactPlaced(names, facts[i]) in multiset(PlacedFacts(names, facts))
  {
    assert PlacedFacts(names, facts)[i] == FactPlaced(names, facts[i]);
  }

  /** The naming of all nodes of a document is injective exactly when no IRI written in it resolves to the
      text of a label that was minted. */
  lemma NamingInjectiveExactly(d: seq<Statement>) returns (st: State, names: seq<Place>)
    requires DocumentOk(d) && DocumentScoped(d, NO_ENV)
    ensures ParseDocument(PrintDocument(d), Initial()) == Ok(st) && st.minted == |names|
    ensures NamingInjective(names, DocumentMeans(d, NO_ENV, [])) <==> !WritesLabel(d, NO_ENV, st.minted)
  {
    hide DocumentOk, DocumentScoped, ParseDocument, PrintDocument, WritesLabel, DocumentMeans;
    var facts;
    st, names, facts := ReadsAs(d);
    var m := DocumentMeans(d, NO_ENV, []);
    if AnyMistaken(facts, |names|) {
      MistakenNotInjective(names, facts);
    } else {
      hide PlacedFacts;
      forall x, y, v | IsNode(names, m, x) && IsNode(names, m, y) && NamedBy(names, x, v) && NamedBy(names, y, v)
        ensures x == y
      {
        SameName(names, facts, x, y, v);
      }
    }
  }

  lemma MistakenNotInjective(names: seq<Place>, facts: seq<Fact>)
    requires AnyMistaken(facts, |names|)
    ensures !NamingInjective(names, multiset(PlacedFacts(names, facts)))
  {
    var i :| 0 <= i < |facts| && (Mistaken(facts[i].s, |names|) || Mistaken(facts[i].o, |names|));
    PlacedIn(names, facts, i);
    var x := if Mistaken(facts[i].s, |names|) then facts[i].s else facts[i].o;
    var k :| 1 <= k <= |names| && x.value == Label(k);
    var m := multiset(PlacedFacts(names, facts));
    assert IsNode(names, m, Fixed(x.value)) && IsNode(names, m, AtPlace(names[k - 1]));
    assert NamedBy(names, Fixed(x.value), x.value) && NamedBy(names, AtPlace(names[k - 1]), x.value);
  }

  lemma SameName(names: seq<Place>, facts: seq<Fact>, x: PlacedNode, y: PlacedNode, v: Value)
    requires !AnyMistaken(facts, |names|)
    requires IsNode(names, multiset(PlacedFacts(names, facts)), x) && IsNode(names, multiset(PlacedFacts(names, facts)), y)
    requires NamedBy(names, x, v) && NamedBy(names, y, v)
    ensures x == y
  {
    if x.Fixed? != y.Fixed? {
      var fixed := if x.Fixed? then x else y;
      var f :| f in multiset(PlacedFacts(names, facts)) && (f.s == fixed || f.o == fixed);
      var i := FactOf(names, facts, f);
      assert Mistaken(if f.s == fixed then facts[i].s else facts[i].o, |names|);
    } else if x.AtPlace? {
      var j :| 1 <= j <= |names| && names[j - 1] == x.place && v == Label(j);
      var k :| 1 <= k <= |names| && names[k - 1] == y.place && v == Label(k);
      LabelInjective(j, k);
    }
  }

  // ----- Reading a triple list back

  /** Every label is taken for a blank node. */
  ghost function Unlabelled(v: Value, n: nat): Node {
    if IsLabel(v, n) then
      var k :| 1 <= k <= n && v == Label(k);
      Blank(k)
    else Known(v)
  }

  ghost function ReadBack(triples: seq<Triple>, n: nat): seq<Fact> {
    seq(|triples|, i requires 0 <= i < |triples| =>
      Fact(Unlabelled(triples[i].s, n), if triples[i].p.TextValue? then triples[i].p.text else "", Unlabelled(triples[i].o, n)))
  }

  lemma {:induction false} WrittenAt(facts: seq<Fact>)
    ensures |Written(facts)| == |facts|
    ensures forall i :: 0 <= i < |facts| ==>
      Written(facts)[i] == Triple(NodeValue(facts[i].s), TextValue(facts[i].p), NodeValue(facts[i].o))
  {
    if facts != [] {
      WrittenAt(facts[1..]);
      forall i | 0 <= i < |facts|
        ensures Written(facts)[i] == Triple(NodeValue(facts[i].s), TextValue(facts[i].p), NodeValue(facts[i].o))
      {
        if i > 0 { assert Written(facts)[i] == Written(facts[1..])[i - 1] && facts[1..][i - 1] == facts[i]; }
      }
    }
  }

  lemma UnlabelledNode(x: Node, n: nat)
    requires Minted(x, n)
    ensures Unlabelled(NodeValue(x), n) == x <==> !Mistaken(x, n)
    ensures Unlabelled(NodeValue(x), n).Known? ==> !Mistaken(Unlabelled(NodeValue(x), n), n)
  {
    if x.Blank? {
      assert IsLabel(Label(x.n), n);
      var k :| 1 <= k <= n && Label(x.n) == Label(k) && Unlabelled(NodeValue(x), n) == Blank(k);
      LabelInjective(x.n, k);
    }
  }

  lemma ReadBackFacts(facts: seq<Fact>, n: nat)
    requires FactsMinted(facts, n)
    ensures !AnyMistaken(facts, n) ==> ReadBack(Written(facts), n) == facts
    ensures !AnyMistaken(ReadBack(Written(facts), n), n)
  {
    WrittenAt(facts);
    var back := ReadBack(Written(facts), n);
    forall i | 0 <= i < |facts|
      ensures !Mistaken(back[i].s, n) && !Mistaken(back[i].o, n)
      ensures !AnyMistaken(facts, n) ==> back[i] == facts[i]
    {
      assert facts[i] in facts;
      UnlabelledNode(facts[i].s, n);
      UnlabelledNode(facts[i].o, n);
    }
  }

  /** Taking every minted label in the triples for a blank node gives the document's meaning back exactly when
      no IRI written in it resolves to the text of such a label. */
  lemma ReadBackExactly(d: seq<Statement>) returns (st: State, names: seq<Place>)
    requires DocumentOk(d) && DocumentScoped(d, NO_ENV)
    ensures ParseDocument(PrintDocument(d), Initial()) == Ok(st) && st.minted == |names| && Distinct(names)
    ensures multiset(PlacedFacts(names, ReadBack(st.triples, st.minted))) == DocumentMeans(d, NO_ENV, [])
      <==> !WritesLabel(d, NO_ENV, st.minted)
  {
    hide DocumentOk, DocumentScoped, ParseDocument, PrintDocument, WritesLabel, DocumentMeans, ReadBack, PlacedFacts;
    var facts;
    st, names, facts := ReadsAs(d);
    ReadBackFacts(facts, |names|);
    if AnyMistaken(facts, |names|)
       && multiset(PlacedFacts(names, ReadBack(st.triples, |names|))) == multiset(PlacedFacts(names, facts)) {
      MistakenStays(names, facts, ReadBack(st.triples, |names|));
    }
  }

  /** A value spelled like a label shows in the meaning. */
  lemma MistakenStays(names: seq<Place>, a: seq<Fact>, b: seq<Fact>)
    requires AnyMistaken(a, |names|) && multiset(PlacedFacts(names, a)) == multiset(PlacedFacts(names, b))
    ensures AnyMistaken(b, |names|)
  {
    var i :| 0 <= i < |a| && (Mistaken(a[i].s, |names|) || Mistaken(a[i].o, |names|));
    PlacedIn(names, a, i);
    var j := FactOf(names, b, FactPlaced(names, a[i]));
    assert Mistaken(a[i].s, |names|) ==> b[j].s == a[i].s;
    assert Mistaken(a[i].o, |names|) ==> b[j].o == a[i].o;
  }

  /** Two meanings that differ in the places of their blank nodes only. */
  ghost predicate SameUpToBlanks(a: multiset<PlacedFact>, b: multiset<PlacedFact>) {
    exists facts, names, others :: SameFacts(a, b, facts, names, others)
  }

  ghost predicate SameFacts(a: multiset<PlacedFact>, b: multiset<PlacedFact>, facts: seq<Fact>, names: seq<Place>,
                            others: seq<Place>) {
    && |names| == |others| && Distinct(names) && Distinct(others) && FactsMinted(facts, |names|)
    && multiset(PlacedFacts(names, facts)) == a && multiset(PlacedFacts(others, facts)) == b
  }

  /** Two documents, in neither of which an IRI resolves to the text of any label, mean the same up to their
      blank nodes if they parse to the same triples. */
  lemma SameTriplesSameMeaning(a: seq<Statement>, b: seq<Statement>)
    requires DocumentOk(a) && DocumentScoped(a, NO_ENV) && forall n :: !WritesLabel(a, NO_ENV, n)
    requires DocumentOk(b) && DocumentScoped(b, NO_ENV) && forall n :: !WritesLabel(b, NO_ENV, n)
    requires ParseDocument(PrintDocument(a), Initial()).Ok? && ParseDocument(PrintDocument(b), Initial()).Ok?
    requires ParseDocument(PrintDocument(a), Initial()).value.triples == ParseDocument(PrintDocument(b), Initial()).value.triples
    ensures SameUpToBlanks(DocumentMeans(a, NO_ENV, []), DocumentMeans(b, NO_ENV, []))
  {
    hide DocumentOk, DocumentScoped, ParseDocument, PrintDocument, WritesLabel, DocumentMeans, ReadBack, PlacedFacts, Written,
      AnyMistaken, Occurs;
    var st, names, facts := ReadsAs(a);
    var st', others, facts' := ReadsAs(b);
    NoMoreLabels(facts, |names|, facts', |others|);
    NoMoreLabels(facts', |others|, facts, |names|);
    ReadBackFacts(facts, |names|);
    ReadBackFacts(facts', |others|);
    assert SameFacts(DocumentMeans(a, NO_ENV, []), DocumentMeans(b, NO_ENV, []), facts, names, others);
  }

  /** The largest label is in the triples, so the other document minted it too. */
  lemma NoMoreLabels(a: seq<Fact>, m: nat, b: seq<Fact>, n: nat)
    requires Written(a) == Written(b) && FactsMinted(b, n) && !AnyMistaken(b, m)
    requires forall k :: 1 <= k <= m ==> Occurs(a, k)
    ensures m <= n
  {
    if m > 0 {
      assert Occurs(a, m);
      var i :| 0 <= i < |a| && (a[i].s == Blank(m) || a[i].o == Blank(m));
      WrittenAt(a);
      WrittenAt(b);
      assert Written(a)[i] == Written(b)[i] && b[i] in b;
      var x := if a[i].s == Blank(m) then b[i].s else b[i].o;
      assert NodeValue(x) == Label(m);
      assert x.Known? ==> Mistaken(x, m);
      assert x.Blank?;
      LabelInjective(x.n, m);
    }
  }

  // ----- An IRI taken for a blank node

  function OnePair(): Pairs {
    LastPair(IriVerb(FullIri("p:q")), OneObject(IriTerm(FullIri("r:s"))), false)
  }

  function FromBlank(): seq<Statement> {
    [Triples(Anon, OnePair())]
  }

  function FromIri(): seq<Statement> {
    [Triples(IriTerm(FullIri("_:b1")), OnePair())]
  }

  /** `[] <p:q> <r:s> .` and `<_:b1> <p:q> <r:s> .` parse to the same triples, and mean different things. */
  lemma IriTakenForBlank()
    ensures ParseDocument(PrintDocument(FromBlank()), Initial()).Ok? && ParseDocument(PrintDocument(FromIri()), Initial()).Ok?
    ensures ParseDocument(PrintDocument(FromBlank()), Initial()).value.triples
      == ParseDocument(PrintDocument(FromIri()), Initial()).value.triples
    ensures !SameUpToBlanks(DocumentMeans(FromBlank(), NO_ENV, []), DocumentMeans(FromIri(), NO_ENV, []))
  {
    OnePairRead();
    hide ParseDocument, PrintDocument, DocumentMeans, ReadDocument;
    DocumentParses(PrintDocument(FromBlank()), Initial(), FromBlank(), NO_ENV);
    DocumentParses(PrintDocument(FromIri()), Initial(), FromIri(), NO_ENV);
    assert [] + Written([OneFact(Blank(1))]) == [] + Written([OneFact(TextNode("_:b1"))]) by { OneFactWritten(); }
    var a, b := DocumentMeans(FromBlank(), NO_ENV, []), DocumentMeans(FromIri(), NO_ENV, []);
    if SameUpToBlanks(a, b) {
      var facts, names, others :| SameFacts(a, b, facts, names, others);
      DifferentFacts(facts, names, others);
    }
  }

  function OneFact(s: Node): Fact {
    Fact(s, "p:q", TextNode("r:s"))
  }

  lemma OneFactWritten()
    ensures Written([OneFact(Blank(1))]) == Written([OneFact(TextNode("_:b1"))])
  {
    assert [OneFact(Blank(1))][1..] == [] && [OneFact(TextNode("_:b1"))][1..] == [];
    assert Decimal(1) == "1";
    assert "_:b" + "1" == "_:b1";
  }

  lemma OnePairRead()
    ensures DocumentOk(FromBlank()) && DocumentScoped(FromBlank(), NO_ENV)
    ensures DocumentOk(FromIri()) && DocumentScoped(FromIri(), NO_ENV)
    ensures ReadDocument(FromBlank(), NO_ENV, 0).facts == [OneFact(Blank(1))]
    ensures ReadDocument(FromIri(), NO_ENV, 0).facts == [OneFact(TextNode("_:b1"))]
    ensures DocumentMeans(FromBlank(), NO_ENV, []) == multiset{PlacedFact(AtPlace(Place([0, 0], 0)), "p:q", FixedText("r:s"))}
    ensures DocumentMeans(FromIri(), NO_ENV, []) == multiset{PlacedFact(FixedText("_:b1"), "p:q", FixedText("r:s"))}
  {
    assert FromBlank()[1..] == [] && FromIri()[1..] == [];
    assert [] + [0] + [0] == [0, 0];
  }

  lemma DifferentFacts(facts: seq<Fact>, names: seq<Place>, others: seq<Place>)
    requires multiset(PlacedFacts(names, facts)) == multiset{PlacedFact(AtPlace(Place([0, 0], 0)), "p:q", FixedText("r:s"))}
    ensures multiset(PlacedFacts(others, facts)) != multiset{PlacedFact(FixedText("_:b1"), "p:q", FixedText("r:s"))}
  {
    var i := FactOf(names, facts, PlacedFact(AtPlace(Place([0, 0], 0)), "p:q", FixedText("r:s")));
    PlacedIn(others, facts, i);
    assert FactPlaced(others, facts[i]).s.AtPlace?;
  }
}
