/** The parser undoes printing: it consumes every token of a printed document and emits exactly the triples of
    the document's meaning, each blank node under its own label. What else may be spelled like a label is
    `TurtleNaming`'s. */
module TurtleRoundTrip {
  import opened Text
  import opened TurtleSyntax
  import opened TurtleParser
  import opened TurtleMeaning
  import opened TurtleReading

  // ----- From a printed document to its reading

  predicate DocumentOk(d: seq<Statement>) {
    forall i :: 0 <= i < |d| ==> StatementOk(d[i])
  }

  lemma AtParts(toks: seq<Token>, i: nat, a: seq<Token>, b: seq<Token>, c: Token)
    requires a != [] && b != [] && At(toks, i, a + (b + [c]))
    ensures At(toks, i, a) && i < |toks| && toks[i] == a[0]
    ensures var j := i + |a|;
      At(toks, j, b) && j < |toks| && toks[j] == b[0] && Sees(toks, j + |b|, c)
  {
    AtSplit(toks, i, a, b + [c]);
    AtFirst(toks, i, a);
    AtSplit(toks, i + |a|, b, [c]);
    AtFirst(toks, i + |a|, b);
    AtFirst(toks, i + |a| + |b|, [c]);
  }

  lemma TriplesLayout(toks: seq<Token>, i: nat, subject: Term, pairs: Pairs)
    requires PairsOk(pairs) && At(toks, i, PrintStatement(Triples(subject, pairs)))
    ensures At(toks, i, PrintTerm(subject)) && Calm(toks, i + |PrintTerm(subject)|)
    ensures i < |toks| && !toks[i].Directive?
    ensures var j := i + |PrintTerm(subject)|;
      At(toks, j, PrintPairs(pairs)) && Sees(toks, j + |PrintPairs(pairs)|, Punct(Dot))
  {
    hide PrintTerm, PrintPairs, PairsOk, Plain, At;
    FirstOfTerm(subject);
    FirstOfPairs(pairs);
    AtParts(toks, i, PrintTerm(subject), PrintPairs(pairs), Punct(Dot));
  }

  lemma TriplesParse(toks: seq<Token>, st: State, subject: Term, pairs: Pairs, env: Env)
    requires TermOk(subject) && PairsOk(pairs) && Agrees(st, env)
    requires At(toks, st.i, PrintStatement(Triples(subject, pairs)))
    ensures TermScoped(subject, env) && PairsScoped(pairs, env) ==>
      ParseStatement(toks, st) == Ok(AfterRead(st, |PrintTerm(subject)| + |PrintPairs(pairs)| + 1,
                                               ReadStatement(Triples(subject, pairs), env, st.minted)))
    ensures !(TermScoped(subject, env) && PairsScoped(pairs, env)) ==> ParseStatement(toks, st) == Err(TurtleError)
  {
    hide PrintTerm, PrintPairs, PrintStatement, ReadTerm, ReadStatement, ParseTerm, TermScoped, PairsScoped, TermOk, PairsOk,
      At, Written;
    TriplesLayout(toks, st.i, subject, pairs);
    TermParses(toks, st, subject, env);
    if TermScoped(subject, env) {
      AfterSubject(toks, st, subject, pairs, env);
    }
  }

  lemma AfterSubject(toks: seq<Token>, st: State, subject: Term, pairs: Pairs, env: Env)
    requires PairsOk(pairs) && Agrees(st, env)
    requires var j := st.i + |PrintTerm(subject)|;
      At(toks, j, PrintPairs(pairs)) && Sees(toks, j + |PrintPairs(pairs)|, Punct(Dot))
    requires var r := ReadTerm(subject, env, st.minted);
      ParseTerm(toks, st) == Ok(Parsed(NodeValue(r.node), After(st, |PrintTerm(subject)|, r.facts, r.minted)))
    ensures PairsScoped(pairs, env) ==>
      ParseStatement(toks, st) == Ok(AfterRead(st, |PrintTerm(subject)| + |PrintPairs(pairs)| + 1,
                                               ReadStatement(Triples(subject, pairs), env, st.minted)))
    ensures !PairsScoped(pairs, env) ==> ParseStatement(toks, st) == Err(TurtleError)
  {
    hide PrintTerm, PrintPairs, ReadTerm, ReadPairs, ParseTerm, ParsePairs, PairsScoped, At, Written;
    var r := ReadTerm(subject, env, st.minted);
    var head := ReadFacts(r.facts, r.minted);
    var st1 := AfterRead(st, |PrintTerm(subject)|, head);
    PairsParse(toks, st1, pairs, r.node, env);
    AfterThen(st, |PrintTerm(subject)|, |PrintPairs(pairs)|, head, ReadPairs(pairs, env, r.node, r.minted));
  }

  lemma AtThree(toks: seq<Token>, i: nat, s: seq<Token>)
    requires At(toks, i, s) && |s| >= 3
    ensures i + 3 <= |toks| && toks[i] == s[0] && toks[i + 1] == s[1] && toks[i + 2] == s[2]
    ensures At(toks, i + 3, s[3..])
  {
    AtFirst(toks, i, s);
    AtFirst(toks, i + 1, s[1..]);
    AtFirst(toks, i + 2, s[1..][1..]);
    assert s[1..][1..][1..] == s[3..];
  }

  lemma AtFour(toks: seq<Token>, i: nat, s: seq<Token>)
    requires At(toks, i, s) && |s| >= 4
    ensures i + 4 <= |toks|
    ensures toks[i] == s[0] && toks[i + 1] == s[1] && toks[i + 2] == s[2] && toks[i + 3] == s[3]
  {
    AtThree(toks, i, s);
    AtFirst(toks, i + 3, s[3..]);
  }

  lemma PrefixParses(toks: seq<Token>, st: State, prefix: string, iri: string, env: Env)
    requires PrefixOk(prefix) && Agrees(st, env) && At(toks, st.i, PrintStatement(PrefixDecl(prefix, iri)))
    ensures st.i < |toks| && toks[st.i].Directive?
    ensures ParseDirective(toks, st) ==
      Ok(st.(i := st.i + 4, scope := st.scope.(prefixes := st.scope.prefixes[prefix := TextValue(ResolveFull(iri, env))])))
  {
    var s := PrintStatement(PrefixDecl(prefix, iri));
    AtFour(toks, st.i, s);
    ColonStrip(prefix);
    IriParses(toks, st.(i := st.i + 2), FullIri(iri), env);
  }

  lemma BaseParses(toks: seq<Token>, st: State, iri: string, env: Env)
    requires Agrees(st, env) && At(toks, st.i, PrintStatement(BaseDecl(iri)))
    ensures st.i < |toks| && toks[st.i].Directive?
    ensures ParseDirective(toks, st) ==
      Ok(st.(i := st.i + 3, scope := st.scope.(base := TextValue(ResolveFull(iri, env)))))
  {
    var s := PrintStatement(BaseDecl(iri));
    AtThree(toks, st.i, s);
    IriParses(toks, st.(i := st.i + 1), FullIri(iri), env);
  }

  /** The parser state a reading leads to: `tokens` further on, with these facts and this count. */
  ghost predicate Reached(st: State, end: State, tokens: nat, read: ReadFacts) {
    && end.i == st.i + tokens
    && end.triples == st.triples + Written(read.facts)
    && end.minted == read.minted
  }

  lemma StatementParses(toks: seq<Token>, st: State, s: Statement, env: Env)
    requires StatementOk(s) && Agrees(st, env) && At(toks, st.i, PrintStatement(s))
    ensures st.i < |toks|
    ensures StatementScoped(s, env) ==>
      var r := ParseNext(toks, st);
      && r.Ok? && Agrees(r.value, EnvAfter(s, env))
      && Reached(st, r.value, |PrintStatement(s)|, ReadStatement(s, env, st.minted))
    ensures !StatementScoped(s, env) ==> ParseNext(toks, st) == Err(TurtleError)
  {
    match s
    case PrefixDecl(prefix, iri) =>
      PrefixParses(toks, st, prefix, iri, env);
      assert st.triples + Written([]) == st.triples;
    case BaseDecl(iri) =>
      BaseParses(toks, st, iri, env);
      assert st.triples + Written([]) == st.triples;
    case Triples(subject, pairs) =>
      TriplesLayout(toks, st.i, subject, pairs);
      TriplesParse(toks, st, subject, pairs, env);
  }

  lemma ReachedThen(st: State, mid: State, end: State, i: nat, j: nat, a: ReadFacts, b: ReadFacts)
    requires Reached(st, mid, i, a) && Reached(mid, end, j, b)
    ensures Reached(st, end, i + j, Then(a, b))
  {
    WrittenAppend(a.facts, b.facts);
    hide Written;
    assert st.triples + Written(a.facts) + Written(b.facts) == st.triples + (Written(a.facts) + Written(b.facts));
  }

  lemma NothingReached(st: State, n: nat)
    requires n == st.minted
    ensures Reached(st, st, 0, ReadFacts([], n))
  {
    assert st.triples + Written([]) == st.triples;
  }

  /** A printed document parses, to its reading, exactly when every prefix it uses is declared before. */
  lemma {:induction false} DocumentParses(toks: seq<Token>, st: State, d: seq<Statement>, env: Env)
    requires DocumentOk(d) && Agrees(st, env)
    requires At(toks, st.i, PrintDocument(d)) && st.i + |PrintDocument(d)| == |toks|
    ensures DocumentScoped(d, env) ==>
      var r := ParseDocument(toks, st);
      r.Ok? && Reached(st, r.value, |PrintDocument(d)|, ReadDocument(d, env, st.minted))
    ensures !DocumentScoped(d, env) ==> ParseDocument(toks, st) == Err(TurtleError)
    decreases |d|
  {
    hide PrintStatement, ReadStatement, StatementScoped, StatementOk, ParseNext, EnvAfter, At, Agrees, Written;
    if d == [] {
      NothingReached(st, st.minted);
    } else {
      AtSplit(toks, st.i, PrintStatement(d[0]), PrintDocument(d[1..]));
      StatementParses(toks, st, d[0], env);
      if StatementScoped(d[0], env) {
        var next := ParseNext(toks, st).value;
        DocumentParses(toks, next, d[1..], EnvAfter(d[0], env));
        if DocumentScoped(d[1..], EnvAfter(d[0], env)) {
          var head := ReadStatement(d[0], env, st.minted);
          var rest := ReadDocument(d[1..], EnvAfter(d[0], env), head.minted);
          ReachedThen(st, next, ParseDocument(toks, next).value, |PrintStatement(d[0])|, |PrintDocument(d[1..])|, head, rest);
        }
      }
    }
  }

  // ----- From the reading to the meaning

  /** Renames a numbered blank node to the place it is written at. */
  function Placed(names: seq<Place>, x: Node): PlacedNode {
    match x
    case Known(v) => Fixed(v)
    case Blank(n) => AtPlace(if 1 <= n <= |names| then names[n - 1] else Place([], 0))
  }

  function FactPlaced(names: seq<Place>, f: Fact): PlacedFact {
    PlacedFact(Placed(names, f.s), f.p, Placed(names, f.o))
  }

  function PlacedFacts(names: seq<Place>, fs: seq<Fact>): (r: seq<PlacedFact>)
    ensures |r| == |fs|
  {
    seq(|fs|, i requires 0 <= i < |fs| => FactPlaced(names, fs[i]))
  }

  function PlacedNodes(names: seq<Place>, xs: seq<Node>): (r: seq<PlacedNode>)
    ensures |r| == |xs|
  {
    seq(|xs|, i requires 0 <= i < |xs| => Placed(names, xs[i]))
  }

  predicate Minted(x: Node, n: nat) {
    x.Blank? ==> 1 <= x.n <= n
  }

  ghost predicate AllMinted(xs: seq<Node>, n: nat) {
    forall x :: x in xs ==> Minted(x, n)
  }

  ghost predicate FactsMinted(fs: seq<Fact>, n: nat) {
    forall f :: f in fs ==> Minted(f.s, n) && Minted(f.o, n)
  }

  ghost predicate Distinct(names: seq<Place>) {
    forall i, j :: 0 <= i < j < |names| ==> names[i] != names[j]
  }

  /** The place lies inside the construct at `path`. */
  predicate Inside(path: seq<nat>, p: Place) {
    path <= p.path
  }

  /** The place lies strictly below the construct at `path`. */
  predicate Below(path: seq<nat>, p: Place) {
    path < p.path
  }

  ghost predicate NoneInside(path: seq<nat>, names: seq<Place>) {
    forall p :: p in names ==> !Inside(path, p)
  }

  ghost predicate NoneBelow(path: seq<nat>, names: seq<Place>) {
    forall p :: p in names ==> !Below(path, p)
  }

  /** `after` continues `before` with fresh places, all inside `path`. */
  ghost predicate Grows(before: seq<Place>, after: seq<Place>, path: seq<nat>) {
    before <= after && Distinct(after) && forall p :: p in after ==> p in before || Inside(path, p)
  }

  ghost predicate GrowsBelow(before: seq<Place>, after: seq<Place>, path: seq<nat>) {
    before <= after && Distinct(after) && forall p :: p in after ==> p in before || Below(path, p)
  }

  lemma OnlyChild(path: seq<nat>, j: nat, k: nat, p: Place)
    requires j != k
    ensures !Inside(path + [j], p) || !Inside(path + [k], p)
  {
    assert (path + [j])[|path|] == j && (path + [k])[|path|] == k;
  }

  /** After the first child has been placed, nothing is inside the second. */
  lemma NoneInSibling(path: seq<nat>, before: seq<Place>, mid: seq<Place>)
    requires NoneBelow(path, before)
    requires Grows(before, mid, path + [0]) || GrowsBelow(before, mid, path + [0])
    ensures NoneInside(path + [1], mid) && NoneBelow(path + [1], mid)
  {
    forall p | p in mid
      ensures !Inside(path + [1], p)
    {
      OnlyChild(path, 0, 1, p);
    }
  }

  lemma PlacedAppend(names: seq<Place>, a: seq<Fact>, b: seq<Fact>)
    ensures PlacedFacts(names, a + b) == PlacedFacts(names, a) + PlacedFacts(names, b)
    ensures multiset(PlacedFacts(names, a + b)) == multiset(PlacedFacts(names, a)) + multiset(PlacedFacts(names, b))
  {
    assert PlacedFacts(names, a + b) == PlacedFacts(names, a) + PlacedFacts(names, b);
  }

  lemma PlacedStable(before: seq<Place>, after: seq<Place>, fs: seq<Fact>)
    requires before <= after && FactsMinted(fs, |before|)
    ensures PlacedFacts(after, fs) == PlacedFacts(before, fs)
  {
    forall i | 0 <= i < |fs|
      ensures FactPlaced(after, fs[i]) == FactPlaced(before, fs[i])
    {
      assert fs[i] in fs;
    }
  }

  lemma PlacedNodesStable(before: seq<Place>, after: seq<Place>, xs: seq<Node>)
    requires before <= after && AllMinted(xs, |before|)
    ensures PlacedNodes(after, xs) == PlacedNodes(before, xs)
  {
    forall i | 0 <= i < |xs|
      ensures Placed(after, xs[i]) == Placed(before, xs[i])
    {
      assert xs[i] in xs;
    }
  }

  // ----- Everything a reading mentions has been minted

  ghost predicate ReadMinted(r: Read, n: nat) {
    n <= r.minted && Minted(r.node, r.minted) && FactsMinted(r.facts, r.minted)
  }

  lemma {:induction false} TermMinted(t: Term, env: Env, n: nat)
    ensures ReadMinted(ReadTerm(t, env, n), n)
    decreases t, 1
  {
    match t
    case IriTerm(_) =>
    case Literal(_, _, _) =>
    case Boolean(_) =>
    case Anon =>
    case Properties(pairs) =>
      PairsMinted(pairs, env, Blank(n + 1), n + 1);
    case Collection(items) =>
      ItemsMinted(items, env, n);
      CollectionMinted(items, env, n);
  }

  lemma CollectionMinted(items: Terms, env: Env, n: nat)
    requires var r := ReadAll(items, env, n); n <= r.minted && AllMinted(r.nodes, r.minted) && FactsMinted(r.facts, r.minted)
    ensures ReadMinted(ReadTerm(Collection(items), env, n), n)
  {
    hide ReadAll, Cells, FactsMinted;
    var r := ReadAll(items, env, n);
    if r.nodes != [] {
      var all := r.minted + |r.nodes|;
      CellsMinted(r.minted + 1, r.nodes, all);
      var cells := Cells(r.minted + 1, r.nodes);
      MintedAppend(r.facts, cells, r.minted, all);
    }
  }

  lemma MintedAppend(a: seq<Fact>, b: seq<Fact>, m: nat, n: nat)
    requires m <= n && FactsMinted(a, m) && FactsMinted(b, n)
    ensures FactsMinted(a + b, n)
  {
  }

  lemma {:induction false} ItemsMinted(ts: Terms, env: Env, n: nat)
    ensures var r := ReadAll(ts, env, n); n <= r.minted && AllMinted(r.nodes, r.minted) && FactsMinted(r.facts, r.minted)
    decreases ts, 0
  {
    if ts.ConsTerm? {
      TermMinted(ts.head, env, n);
      ItemsMinted(ts.tail, env, ReadTerm(ts.head, env, n).minted);
    }
  }

  lemma {:induction false} CellsMinted(first: nat, nodes: seq<Node>, n: nat)
    requires AllMinted(nodes, n) && 1 <= first && first + |nodes| <= n + 1
    ensures FactsMinted(Cells(first, nodes), n)
    decreases |nodes|
  {
    if nodes != [] {
      assert AllMinted(nodes[1..], n);
      CellsMinted(first + 1, nodes[1..], n);
    }
  }

  ghost predicate FactsReadMinted(r: ReadFacts, n: nat) {
    n <= r.minted && FactsMinted(r.facts, r.minted)
  }

  lemma {:induction false} ObjectsMinted(os: Objects, env: Env, s: Node, p: string, n: nat)
    requires Minted(s, n)
    ensures FactsReadMinted(ReadObjects(os, env, s, p, n), n)
    decreases os, 0
  {
    TermMinted(os.item, env, n);
    var o := ReadTerm(os.item, env, n);
    var first := ReadFacts(o.facts + [Fact(s, p, o.node)], o.minted);
    MintedAppend(o.facts, [Fact(s, p, o.node)], o.minted, o.minted);
    if os.MoreObjects? {
      ObjectsMinted(os.rest, env, s, p, o.minted);
    }
  }

  lemma {:induction false} PairsMinted(ps: Pairs, env: Env, s: Node, n: nat)
    requires Minted(s, n)
    ensures FactsReadMinted(ReadPairs(ps, env, s, n), n)
    decreases ps, 0
  {
    var first := ReadObjects(ps.objects, env, s, VerbIri(ps.verb, env), n);
    ObjectsMinted(ps.objects, env, s, VerbIri(ps.verb, env), n);
    if ps.MorePairs? {
      PairsMinted(ps.rest, env, s, first.minted);
    }
  }

  lemma StatementMinted(s: Statement, env: Env, n: nat)
    ensures FactsReadMinted(ReadStatement(s, env, n), n)
  {
    if s.Triples? {
      TermMinted(s.subject, env, n);
      var head := ReadTerm(s.subject, env, n);
      PairsMinted(s.pairs, env, head.node, head.minted);
    }
  }

  // ----- The reading, renamed, is the meaning

  /** A reading's facts under the names are the meaning's. */
  ghost predicate Realises(names: seq<Place>, r: ReadFacts, m: multiset<PlacedFact>) {
    |names| == r.minted && multiset(PlacedFacts(names, r.facts)) == m
  }

  lemma RealisesThen(mid: seq<Place>, after: seq<Place>, a: ReadFacts, b: ReadFacts,
                     ma: multiset<PlacedFact>, mb: multiset<PlacedFact>)
    requires Realises(mid, a, ma) && Realises(after, b, mb) && mid <= after && FactsMinted(a.facts, |mid|)
    ensures Realises(after, Then(a, b), ma + mb)
  {
    PlacedStable(mid, after, a.facts);
    PlacedAppend(after, a.facts, b.facts);
  }

  lemma AddPlace(path: seq<nat>, before: seq<Place>)
    requires Distinct(before) && NoneInside(path, before)
    ensures Grows(before, before + [Place(path, 0)], path) && NoneBelow(path, before + [Place(path, 0)])
  {
    var after := before + [Place(path, 0)];
    forall i, j | 0 <= i < j < |after|
      ensures after[i] != after[j]
    {
      assert before[i] in before;
    }
  }

  /** The term's node and facts under `after` are its meaning at `path`. */
  ghost predicate TermRealised(t: Term, env: Env, path: seq<nat>, n: nat, after: seq<Place>) {
    var r, m := ReadTerm(t, env, n), TermMeans(t, env, path);
    Placed(after, r.node) == m.node && Realises(after, ReadFacts(r.facts, r.minted), m.facts)
  }

  lemma {:induction false} TermPlaced(t: Term, env: Env, path: seq<nat>, before: seq<Place>) returns (after: seq<Place>)
    requires Distinct(before) && NoneInside(path, before)
    ensures Grows(before, after, path) && TermRealised(t, env, path, |before|, after)
    decreases t, 1
  {
    match t
    case IriTerm(_) => after := before;
    case Literal(_, _, _) => after := before;
    case Boolean(_) => after := before;
    case Anon =>
      after := before + [Place(path, 0)];
      AddPlace(path, before);
    case Properties(pairs) =>
      after := PropertiesPlaced(pairs, env, path, before);
    case Collection(items) =>
      after := CollectionPlaced(items, env, path, before);
  }

  lemma {:induction false} PropertiesPlaced(pairs: Pairs, env: Env, path: seq<nat>, before: seq<Place>)
    returns (after: seq<Place>)
    requires Distinct(before) && NoneInside(path, before)
    ensures Grows(before, after, path) && TermRealised(Properties(pairs), env, path, |before|, after)
    decreases pairs, 1
  {
    var mid := before + [Place(path, 0)];
    AddPlace(path, before);
    after := PairsPlaced(pairs, env, Blank(|mid|), path, mid);
    assert after[|mid| - 1] == mid[|mid| - 1];
    assert forall p :: p in after ==> p in mid || Inside(path, p);
  }

  lemma {:induction false} CollectionPlaced(items: Terms, env: Env, path: seq<nat>, before: seq<Place>)
    returns (after: seq<Place>)
    requires Distinct(before) && NoneInside(path, before)
    ensures Grows(before, after, path) && TermRealised(Collection(items), env, path, |before|, after)
    decreases items, 1
  {
    var mid := ItemsPlaced(items, env, path, before);
    if ReadAll(items, env, |before|).nodes == [] {
      after := mid;
    } else {
      after := ListPlaced(items, env, path, before, mid);
    }
  }

  /** The items have been read into `r` and mean `m` under `names`. */
  ghost predicate ItemsRealised(r: ReadItems, m: ItemsMeaning, names: seq<Place>) {
    && PlacedNodes(names, r.nodes) == m.nodes && Realises(names, ReadFacts(r.facts, r.minted), m.facts)
    && AllMinted(r.nodes, r.minted) && FactsMinted(r.facts, r.minted)
  }

  lemma ListPlaced(items: Terms, env: Env, path: seq<nat>, before: seq<Place>, mid: seq<Place>)
    returns (after: seq<Place>)
    requires NoneInside(path, before) && GrowsBelow(before, mid, path) && ReadAll(items, env, |before|).nodes != []
    requires ItemsRealised(ReadAll(items, env, |before|), ItemsMean(items, env, path), mid)
    ensures Grows(before, after, path) && TermRealised(Collection(items), env, path, |before|, after)
  {
    hide Grows, GrowsBelow, NoneInside, TermRealised, Cells, CellsMean, PlacedFacts, PlacedNodes, AllMinted, FactsMinted;
    after := CellsPlaced(ReadAll(items, env, |before|), path, before, mid);
    ListRealised(items, env, path, |before|, after);
  }

  lemma ListRealised(items: Terms, env: Env, path: seq<nat>, n: nat, names: seq<Place>)
    requires var r, m := ReadAll(items, env, n), ItemsMean(items, env, path);
      && |r.nodes| == |m.nodes| > 0
      && |names| == r.minted + |r.nodes| && names[r.minted] == Place(path, 0)
      && multiset(PlacedFacts(names, r.facts + Cells(r.minted + 1, r.nodes))) == m.facts + CellsMean(path, 0, m.nodes)
    ensures TermRealised(Collection(items), env, path, n, names)
  {
    hide ReadAll, ItemsMean, Cells, CellsMean, PlacedFacts;
  }

  lemma {:induction false} ItemsPlaced(ts: Terms, env: Env, path: seq<nat>, before: seq<Place>) returns (after: seq<Place>)
    requires Distinct(before) && NoneBelow(path, before)
    ensures GrowsBelow(before, after, path)
    ensures ItemsRealised(ReadAll(ts, env, |before|), ItemsMean(ts, env, path), after)
    decreases ts, 0
  {
    ItemsMinted(ts, env, |before|);
    if ts.NoTerms? {
      after := before;
    } else {
      var mid := TermPlaced(ts.head, env, path + [0], before);
      NoneInSibling(path, before, mid);
      after := ItemsPlaced(ts.tail, env, path + [1], mid);
      ItemsJoined(ts, env, path, before, mid, after);
    }
  }

  lemma {:induction false} ItemsJoined(ts: Terms, env: Env, path: seq<nat>, before: seq<Place>, mid: seq<Place>, after: seq<Place>)
    requires ts.ConsTerm? && mid <= after && TermRealised(ts.head, env, path + [0], |before|, mid)
    requires var r, m := ReadAll(ts.tail, env, |mid|), ItemsMean(ts.tail, env, path + [1]);
      PlacedNodes(after, r.nodes) == m.nodes && Realises(after, ReadFacts(r.facts, r.minted), m.facts)
    ensures var r, m := ReadAll(ts, env, |before|), ItemsMean(ts, env, path);
      PlacedNodes(after, r.nodes) == m.nodes && Realises(after, ReadFacts(r.facts, r.minted), m.facts)
  {
    TermMinted(ts.head, env, |before|);
    var head, tail := ReadTerm(ts.head, env, |before|), ReadAll(ts.tail, env, |mid|);
    RealisesThen(mid, after, ReadFacts(head.facts, head.minted), ReadFacts(tail.facts, tail.minted),
                 TermMeans(ts.head, env, path + [0]).facts, ItemsMean(ts.tail, env, path + [1]).facts);
    PlacedNodesCons(mid, after, head.node, tail.nodes);
  }

  lemma PlacedNodesCons(mid: seq<Place>, after: seq<Place>, x: Node, xs: seq<Node>)
    requires mid <= after && Minted(x, |mid|)
    ensures PlacedNodes(after, [x] + xs) == [Placed(mid, x)] + PlacedNodes(after, xs)
  {
    assert Placed(after, x) == Placed(mid, x);
  }

  function CellPlaces(path: seq<nat>, k: nat): (r: seq<Place>)
    ensures |r| == k
  {
    seq(k, i requires 0 <= i < k => Place(path, i))
  }

  /** The cells of a collection are named after its own path, once its items have been placed below it. */
  lemma CellsPlaced(r: ReadItems, path: seq<nat>, before: seq<Place>, mid: seq<Place>) returns (after: seq<Place>)
    requires NoneInside(path, before) && GrowsBelow(before, mid, path) && |mid| == r.minted
    requires AllMinted(r.nodes, r.minted) && FactsMinted(r.facts, r.minted)
    ensures Grows(before, after, path) && mid <= after && |after| == r.minted + |r.nodes|
    ensures r.nodes != [] ==> after[r.minted] == Place(path, 0)
    ensures multiset(PlacedFacts(after, r.facts + Cells(r.minted + 1, r.nodes))) ==
      multiset(PlacedFacts(mid, r.facts)) + CellsMean(path, 0, PlacedNodes(mid, r.nodes))
  {
    var cells := CellPlaces(path, |r.nodes|);
    after := mid + cells;
    assert Grows(before, after, path) by {
      forall i, j | 0 <= i < j < |after|
        ensures after[i] != after[j]
      {
        if i < |mid| <= j {
          assert mid[i] in mid && !(mid[i].path == path);
        }
      }
      forall p | p in after
        ensures p in before || Inside(path, p)
      {
        assert p in mid || p in cells;
      }
    }
    PlacedStable(mid, after, r.facts);
    PlacedNodesStable(mid, after, r.nodes);
    PlacedAppend(after, r.facts, Cells(r.minted + 1, r.nodes));
    CellsRealise(after, path, 0, r.minted + 1, r.nodes);
  }

  lemma {:induction false} CellsRealise(names: seq<Place>, path: seq<nat>, index: nat, first: nat, nodes: seq<Node>)
    requires 1 <= first && first - 1 + |nodes| <= |names|
    requires forall j :: first - 1 <= j < first - 1 + |nodes| ==> names[j] == Place(path, index + j - (first - 1))
    ensures multiset(PlacedFacts(names, Cells(first, nodes))) == CellsMean(path, index, PlacedNodes(names, nodes))
    decreases |nodes|
  {
    hide CellsMean, PlacedNodes, PlacedFacts;
    NothingPlaced(names, path, index);
    if nodes != [] {
      var a := Fact(Blank(first), RDF_FIRST, nodes[0]);
      var b := Fact(Blank(first), RDF_REST, if |nodes| > 1 then Blank(first + 1) else TextNode(RDF_NIL));
      var ns := PlacedNodes(names, nodes);
      CellsRealise(names, path, index + 1, first + 1, nodes[1..]);
      PlacedPair(names, a, b, Cells(first + 1, nodes[1..]));
      PlacedTail(names, nodes);
      assert FactPlaced(names, a) == PlacedFact(AtPlace(Place(path, index)), RDF_FIRST, ns[0]);
      assert FactPlaced(names, b) == PlacedFact(AtPlace(Place(path, index)), RDF_REST,
          if |ns| > 1 then AtPlace(Place(path, index + 1)) else FixedText(RDF_NIL));
      CellsMeanStep(path, index, ns);
    }
  }

  lemma NothingPlaced(names: seq<Place>, path: seq<nat>, index: nat)
    ensures PlacedFacts(names, []) == [] && CellsMean(path, index, PlacedNodes(names, [])) == multiset{}
  {
  }

  lemma CellsMeanStep(path: seq<nat>, index: nat, ns: seq<PlacedNode>)
    requires ns != []
    ensures CellsMean(path, index, ns) ==
      multiset{PlacedFact(AtPlace(Place(path, index)), RDF_FIRST, ns[0]),
               PlacedFact(AtPlace(Place(path, index)), RDF_REST,
                          if |ns| > 1 then AtPlace(Place(path, index + 1)) else FixedText(RDF_NIL))}
      + CellsMean(path, index + 1, ns[1..])
  {
  }

  lemma PlacedTail(names: seq<Place>, nodes: seq<Node>)
    requires nodes != []
    ensures PlacedNodes(names, nodes)[0] == Placed(names, nodes[0])
    ensures PlacedNodes(names, nodes)[1..] == PlacedNodes(names, nodes[1..])
  {
  }

  lemma PlacedPair(names: seq<Place>, a: Fact, b: Fact, rest: seq<Fact>)
    ensures multiset(PlacedFacts(names, [a, b] + rest)) ==
      multiset{FactPlaced(names, a), FactPlaced(names, b)} + multiset(PlacedFacts(names, rest))
  {
    PlacedAppend(names, [a, b], rest);
    assert PlacedFacts(names, [a, b]) == [FactPlaced(names, a), FactPlaced(names, b)];
  }

  lemma {:induction false} ObjectsPlaced(os: Objects, env: Env, s: Node, p: string, path: seq<nat>, before: seq<Place>)
    returns (after: seq<Place>)
    requires Distinct(before) && NoneBelow(path, before) && Minted(s, |before|)
    ensures GrowsBelow(before, after, path)
    ensures Realises(after, ReadObjects(os, env, s, p, |before|), ObjectsMean(os, env, Placed(before, s), p, path))
    decreases os, 0
  {
    var mid := TermPlaced(os.item, env, path + [0], before);
    TermMinted(os.item, env, |before|);
    var o := ReadTerm(os.item, env, |before|);
    var first := ReadFacts(o.facts + [Fact(s, p, o.node)], o.minted);
    var m := TermMeans(os.item, env, path + [0]);
    var firstMeans := multiset{PlacedFact(Placed(before, s), p, m.node)} + m.facts;
    ObjectRealised(mid, o, s, p, Placed(before, s), m);
    if os.OneObject? {
      after := mid;
      assert firstMeans + multiset{} == firstMeans;
    } else {
      NoneInSibling(path, before, mid);
      after := ObjectsPlaced(os.rest, env, s, p, path + [1], mid);
      MintedAppend(o.facts, [Fact(s, p, o.node)], o.minted, o.minted);
      RealisesThen(mid, after, first, ReadObjects(os.rest, env, s, p, |mid|),
                   firstMeans, ObjectsMean(os.rest, env, Placed(before, s), p, path + [1]));
    }
  }

  lemma ObjectRealised(names: seq<Place>, o: Read, s: Node, p: string, placed: PlacedNode, m: Meaning)
    requires Placed(names, s) == placed && Placed(names, o.node) == m.node
    requires Realises(names, ReadFacts(o.facts, o.minted), m.facts)
    ensures Realises(names, ReadFacts(o.facts + [Fact(s, p, o.node)], o.minted),
                     multiset{PlacedFact(placed, p, m.node)} + m.facts)
  {
    var fact := Fact(s, p, o.node);
    PlacedAppend(names, o.facts, [fact]);
    assert PlacedFacts(names, [fact]) == [FactPlaced(names, fact)];
  }

  lemma {:induction false} PairsPlaced(ps: Pairs, env: Env, s: Node, path: seq<nat>, before: seq<Place>) returns (after: seq<Place>)
    requires Distinct(before) && NoneBelow(path, before) && Minted(s, |before|)
    ensures GrowsBelow(before, after, path)
    ensures Realises(after, ReadPairs(ps, env, s, |before|), PairsMean(ps, env, Placed(before, s), path))
    decreases ps, 0
  {
    var p := VerbIri(ps.verb, env);
    var mid := ObjectsPlaced(ps.objects, env, s, p, path + [0], before);
    ObjectsMinted(ps.objects, env, s, p, |before|);
    var first := ReadObjects(ps.objects, env, s, p, |before|);
    var firstMeans := ObjectsMean(ps.objects, env, Placed(before, s), p, path + [0]);
    if ps.LastPair? {
      after := mid;
      assert firstMeans + multiset{} == firstMeans;
    } else {
      NoneInSibling(path, before, mid);
      after := PairsPlaced(ps.rest, env, s, path + [1], mid);
      RealisesThen(mid, after, first, ReadPairs(ps.rest, env, s, |mid|),
                   firstMeans, PairsMean(ps.rest, env, Placed(before, s), path + [1]));
    }
  }

  lemma StatementPlaced(s: Statement, env: Env, path: seq<nat>, before: seq<Place>) returns (after: seq<Place>)
    requires Distinct(before) && NoneBelow(path, before)
    ensures GrowsBelow(before, after, path)
    ensures Realises(after, ReadStatement(s, env, |before|), StatementMeans(s, env, path))
  {
    if !s.Triples? {
      after := before;
    } else {
      var mid := TermPlaced(s.subject, env, path + [0], before);
      TermMinted(s.subject, env, |before|);
      NoneInSibling(path, before, mid);
      var head, m := ReadTerm(s.subject, env, |before|), TermMeans(s.subject, env, path + [0]);
      after := PairsPlaced(s.pairs, env, head.node, path + [1], mid);
      RealisesThen(mid, after, ReadFacts(head.facts, head.minted), ReadPairs(s.pairs, env, head.node, |mid|),
                   m.facts, PairsMean(s.pairs, env, m.node, path + [1]));
    }
  }

  lemma {:induction false} DocumentPlaced(d: seq<Statement>, env: Env, path: seq<nat>, before: seq<Place>) returns (after: seq<Place>)
    requires Distinct(before) && NoneBelow(path, before)
    ensures GrowsBelow(before, after, path)
    ensures Realises(after, ReadDocument(d, env, |before|), DocumentMeans(d, env, path))
    decreases |d|
  {
    if d == [] {
      after := before;
    } else {
      var mid := StatementPlaced(d[0], env, path + [0], before);
      StatementMinted(d[0], env, |before|);
      NoneInSibling(path, before, mid);
      after := DocumentPlaced(d[1..], EnvAfter(d[0], env), path + [1], mid);
      RealisesThen(mid, after, ReadStatement(d[0], env, |before|), ReadDocument(d[1..], EnvAfter(d[0], env), |mid|),
                   StatementMeans(d[0], env, path + [0]), DocumentMeans(d[1..], EnvAfter(d[0], env), path + [1]));
    }
  }

  // ----- Main results

  /** `triples` are the facts of `m` in some order, with the place `names[k]` written as the label `k + 1`. */
  ghost predicate WrittenAs(triples: seq<Triple>, names: seq<Place>, m: multiset<PlacedFact>) {
    exists facts :: triples == Written(facts) && FactsMinted(facts, |names|) && multiset(PlacedFacts(names, facts)) == m
  }

  /** Labels never repeat. */
  lemma LabelInjective(a: nat, b: nat)
    requires Label(a) == Label(b)
    ensures a == b
  {
    assert ("_:b" + Decimal(a))[3..] == Decimal(a) && ("_:b" + Decimal(b))[3..] == Decimal(b);
    DecimalInjective(a, b);
  }

  lemma {:induction false} DocumentMinted(d: seq<Statement>, env: Env, n: nat)
    ensures FactsReadMinted(ReadDocument(d, env, n), n)
    decreases |d|
  {
    if d != [] {
      var head := ReadStatement(d[0], env, n);
      StatementMinted(d[0], env, n);
      DocumentMinted(d[1..], EnvAfter(d[0], env), head.minted);
    }
  }

  /** Parsing a printed document consumes all its tokens and yields exactly its meaning, each blank node
      under its own label; the count of labels minted is the count of blank nodes written. */
  lemma ParsePrinted(d: seq<Statement>) returns (names: seq<Place>)
    requires DocumentOk(d) && DocumentScoped(d, NO_ENV)
    ensures ParseDocument(PrintDocument(d), Initial()).Ok?
    ensures var st := ParseDocument(PrintDocument(d), Initial()).value;
      && st.i == |PrintDocument(d)|
      && |names| == st.minted && Distinct(names)
      && WrittenAs(st.triples, names, DocumentMeans(d, NO_ENV, []))
  {
    var toks := PrintDocument(d);
    DocumentParses(toks, Initial(), d, NO_ENV);
    names := DocumentPlaced(d, NO_ENV, [], []);
    DocumentMinted(d, NO_ENV, 0);
    var facts := ReadDocument(d, NO_ENV, 0).facts;
    assert [] + Written(facts) == Written(facts);
  }

  /** Parsing a printed document fails exactly when it uses a prefix it has not declared before. */
  lemma ParseFailsOnlyOnPrefixes(d: seq<Statement>)
    requires DocumentOk(d)
    ensures ParseDocument(PrintDocument(d), Initial()).Ok? <==> DocumentScoped(d, NO_ENV)
    ensures !DocumentScoped(d, NO_ENV) ==> ParseDocument(PrintDocument(d), Initial()) == Err(TurtleError)
  {
    DocumentParses(PrintDocument(d), Initial(), d, NO_ENV);
  }
}
