/** Reading a document in order, numbering blank nodes as they are met: the bridge between the parser's
    token-by-token run and the document's meaning. */
module TurtleReading {
  import opened Text
  import opened TurtleSyntax
  import opened TurtleParser
  import opened TurtleMeaning

  /** A known value, or the blank node minted `n`-th. */
  datatype Node = Known(value: Value) | Blank(n: nat)

  datatype Fact = Fact(s: Node, p: string, o: Node)

  function TextNode(s: string): Node {
    Known(TextValue(s))
  }

  /** A term's node, the facts it emitted in order, and the number of blank nodes minted by then. */
  datatype Read = Read(node: Node, facts: seq<Fact>, minted: nat)

  datatype ReadItems = ReadItems(nodes: seq<Node>, facts: seq<Fact>, minted: nat)

  datatype ReadFacts = ReadFacts(facts: seq<Fact>, minted: nat)

  function ReadTerm(t: Term, env: Env, n: nat): Read
    decreases t
  {
    match t
    case IriTerm(i) => Read(TextNode(Resolve(i, env)), [], n)
    case Literal(long, body, _) => Read(TextNode(LiteralText(long, body)), [], n)
    case Boolean(b) => Read(Known(BoolValue(b)), [], n)
    case Anon => Read(Blank(n + 1), [], n + 1)
    case Properties(pairs) =>
      var inner := ReadPairs(pairs, env, Blank(n + 1), n + 1);
      Read(Blank(n + 1), inner.facts, inner.minted)
    case Collection(items) =>
      var inner := ReadAll(items, env, n);
      if inner.nodes == [] then Read(TextNode(RDF_NIL), inner.facts, inner.minted)
      else Read(Blank(inner.minted + 1), inner.facts + Cells(inner.minted + 1, inner.nodes), inner.minted + |inner.nodes|)
  }

  function ReadAll(ts: Terms, env: Env, n: nat): ReadItems
    decreases ts
  {
    match ts
    case NoTerms => ReadItems([], [], n)
    case ConsTerm(t, rest) =>
      var head := ReadTerm(t, env, n);
      var tail := ReadAll(rest, env, head.minted);
      ReadItems([head.node] + tail.nodes, head.facts + tail.facts, tail.minted)
  }

  function Cells(first: nat, nodes: seq<Node>): seq<Fact>
    decreases |nodes|
  {
    if nodes == [] then []
    else
      [Fact(Blank(first), RDF_FIRST, nodes[0]),
       Fact(Blank(first), RDF_REST, if |nodes| > 1 then Blank(first + 1) else TextNode(RDF_NIL))]
      + Cells(first + 1, nodes[1..])
  }

  function ReadObjects(os: Objects, env: Env, s: Node, p: string, n: nat): ReadFacts
    decreases os, 1
  {
    var o := ReadTerm(os.item, env, n);
    ReadMoreObjects(os, env, s, p, ReadFacts(o.facts + [Fact(s, p, o.node)], o.minted))
  }

  function ReadMoreObjects(os: Objects, env: Env, s: Node, p: string, first: ReadFacts): ReadFacts
    decreases os, 0
  {
    match os
    case OneObject(_) => first
    case MoreObjects(_, rest) => Then(first, ReadObjects(rest, env, s, p, first.minted))
  }

  function Then(a: ReadFacts, b: ReadFacts): ReadFacts {
    ReadFacts(a.facts + b.facts, b.minted)
  }

  function ReadPairs(ps: Pairs, env: Env, s: Node, n: nat): ReadFacts
    decreases ps, 1
  {
    ReadMorePairs(ps, env, s, ReadObjects(ps.objects, env, s, VerbIri(ps.verb, env), n))
  }

  function ReadMorePairs(ps: Pairs, env: Env, s: Node, first: ReadFacts): ReadFacts
    decreases ps, 0
  {
    match ps
    case LastPair(_, _, _) => first
    case MorePairs(_, _, rest) => Then(first, ReadPairs(rest, env, s, first.minted))
  }

  function ReadStatement(s: Statement, env: Env, n: nat): ReadFacts {
    match s
    case PrefixDecl(_, _) => ReadFacts([], n)
    case BaseDecl(_) => ReadFacts([], n)
    case Triples(subject, pairs) =>
      var head := ReadTerm(subject, env, n);
      Then(ReadFacts(head.facts, head.minted), ReadPairs(pairs, env, head.node, head.minted))
  }

  function ReadDocument(d: seq<Statement>, env: Env, n: nat): ReadFacts {
    if d == [] then ReadFacts([], n)
    else
      var head := ReadStatement(d[0], env, n);
      Then(head, ReadDocument(d[1..], EnvAfter(d[0], env), head.minted))
  }

  // ----- How the parser writes nodes and facts down

  function NodeValue(x: Node): Value {
    match x
    case Known(v) => v
    case Blank(n) => Label(n)
  }

  function NodeValues(xs: seq<Node>): seq<Value> {
    if xs == [] then [] else [NodeValue(xs[0])] + NodeValues(xs[1..])
  }

  function Written(fs: seq<Fact>): seq<Triple> {
    if fs == [] then []
    else [Triple(NodeValue(fs[0].s), TextValue(fs[0].p), NodeValue(fs[0].o))] + Written(fs[1..])
  }

  lemma {:induction false} WrittenAppend(a: seq<Fact>, b: seq<Fact>)
    ensures Written(a + b) == Written(a) + Written(b)
    decreases |a|
  {
    if a == [] {
      assert a + b == b;
    } else {
      WrittenAppend(a[1..], b);
      assert (a + b)[1..] == a[1..] + b;
    }
  }

  lemma {:induction false} NodeValuesLength(xs: seq<Node>)
    ensures |NodeValues(xs)| == |xs|
  {
    if xs != [] { NodeValuesLength(xs[1..]); }
  }

  lemma {:induction false} CellsWritten(first: nat, nodes: seq<Node>)
    ensures Written(Cells(first, nodes)) == CellTriples(first, NodeValues(nodes))
    decreases |nodes|
  {
    if nodes != [] {
      NodeValuesLength(nodes);
      CellsWritten(first + 1, nodes[1..]);
      var pair := Cells(first, nodes)[..2];
      assert Cells(first, nodes) == pair + Cells(first + 1, nodes[1..]);
      WrittenAppend(pair, Cells(first + 1, nodes[1..]));
      assert pair[1..] == [pair[1]] && pair[1..][1..] == [];
      assert NodeValues(nodes)[1..] == NodeValues(nodes[1..]);
    }
  }

  // ----- The parser reads exactly this

  /** Names a position; `At` is looked up only at named positions, which keeps it out of other proofs. */
  ghost predicate Pos(k: int) {
    true
  }

  /** The tokens from `i` on start with `s`. */
  ghost predicate At(toks: seq<Token>, i: nat, s: seq<Token>) {
    i + |s| <= |toks| && forall k {:trigger Pos(k)} :: Pos(k) && 0 <= k < |s| ==> toks[i + k] == s[k]
  }

  lemma AtSplit(toks: seq<Token>, i: nat, a: seq<Token>, b: seq<Token>)
    requires At(toks, i, a + b)
    ensures At(toks, i, a) && At(toks, i + |a|, b)
  {
    forall k | Pos(k) && 0 <= k < |a|
      ensures toks[i + k] == a[k]
    {
      assert (a + b)[k] == a[k];
    }
    forall k | Pos(k) && 0 <= k < |b|
      ensures toks[i + |a| + k] == b[k]
    {
      assert Pos(|a| + k) && (a + b)[|a| + k] == b[k];
    }
  }

  lemma AtFirst(toks: seq<Token>, i: nat, s: seq<Token>)
    requires At(toks, i, s) && s != []
    ensures i < |toks| && toks[i] == s[0]
    ensures At(toks, i + 1, s[1..])
  {
    assert Pos(0);
    forall k | Pos(k) && 0 <= k < |s[1..]|
      ensures toks[i + 1 + k] == s[1..][k]
    {
      assert Pos(k + 1);
    }
  }

  /** The next token does not continue a literal. */
  ghost predicate Calm(toks: seq<Token>, i: nat) {
    !SeesTag(toks, i) && !Sees(toks, i, Caret)
  }

  /** The parser state and the scope agree. */
  ghost predicate Agrees(st: State, env: Env) {
    && st.scope.base == TextValue(env.base)
    && st.scope.prefixes.Keys == env.prefixes.Keys
    && forall p :: p in env.prefixes ==> st.scope.prefixes[p] == TextValue(env.prefixes[p])
  }

  lemma ColonStrip(prefix: string)
    requires PrefixOk(prefix)
    ensures StripColons(prefix + ":") == prefix
  {
    assert (prefix + ":")[..|prefix|] == prefix;
    assert prefix[|prefix| - 1] in prefix;
  }

  /** Neither continues a literal nor closes a block. */
  predicate Plain(tok: Token) {
    !tok.Directive? && tok != Caret && tok != Punct(CloseBracket) && tok != Punct(Dot)
  }

  /** What every printed term starts with: a token that neither closes a list nor continues a literal. */
  lemma FirstOfTerm(t: Term)
    ensures PrintTerm(t) != [] && Plain(PrintTerm(t)[0]) && PrintTerm(t)[0] != Punct(CloseParen)
  {
  }

  lemma IriParses(toks: seq<Token>, st: State, i: IriName, env: Env)
    requires IriOk(i) && Agrees(st, env) && st.i < |toks| && toks[st.i] == PrintIri(i)
    ensures ParseTerm(toks, st) ==
      if IriScoped(i, env) then Ok(Parsed(TextValue(Resolve(i, env)), st.(i := st.i + 1))) else Err(TurtleError)
  {
    match i
    case FullIri(text) =>
      assert Inner("<" + text + ">") == text;
    case Prefixed(prefix, local) =>
      ColonSplit(prefix, local);
  }

  /** Where the parser is after reading facts. */
  function After(st: State, tokens: nat, facts: seq<Fact>, minted: nat): State {
    st.(i := st.i + tokens, triples := st.triples + Written(facts), minted := minted)
  }

  function AfterRead(st: State, tokens: nat, r: ReadFacts): State {
    After(st, tokens, r.facts, r.minted)
  }

  lemma AfterThen(st: State, i: nat, j: nat, a: ReadFacts, b: ReadFacts)
    ensures AfterRead(AfterRead(st, i, a), j, b) == AfterRead(st, i + j, Then(a, b))
  {
    AfterAfter(st, i, j, a.facts, b.facts, a.minted, b.minted);
  }

  lemma AfterNothing(st: State, tokens: nat, minted: nat)
    ensures After(st, tokens, [], minted) == st.(i := st.i + tokens, minted := minted)
  {
    assert st.triples + Written([]) == st.triples;
  }

  lemma AfterAfter(st: State, i: nat, j: nat, a: seq<Fact>, b: seq<Fact>, m: nat, n: nat)
    ensures After(After(st, i, a, m), j, b, n) == After(st, i + j, a + b, n)
  {
    WrittenAppend(a, b);
  }

  lemma {:induction false} TermParses(toks: seq<Token>, st: State, t: Term, env: Env)
    requires TermOk(t) && Agrees(st, env) && At(toks, st.i, PrintTerm(t)) && Calm(toks, st.i + |PrintTerm(t)|)
    ensures TermScoped(t, env) ==>
      var r := ReadTerm(t, env, st.minted);
      ParseTerm(toks, st) == Ok(Parsed(NodeValue(r.node), After(st, |PrintTerm(t)|, r.facts, r.minted)))
    ensures !TermScoped(t, env) ==> ParseTerm(toks, st) == Err(TurtleError)
    decreases t, 0
  {
    if t.Properties? {
      PropertiesParse(toks, st, t.pairs, env);
    } else if t.Collection? {
      CollectionParses(toks, st, t.items, env);
    } else {
      LeafParses(toks, st, t, env);
    }
  }

  lemma LeafParses(toks: seq<Token>, st: State, t: Term, env: Env)
    requires !t.Properties? && !t.Collection?
    requires TermOk(t) && Agrees(st, env) && At(toks, st.i, PrintTerm(t)) && Calm(toks, st.i + |PrintTerm(t)|)
    ensures TermScoped(t, env) ==>
      var r := ReadTerm(t, env, st.minted);
      ParseTerm(toks, st) == Ok(Parsed(NodeValue(r.node), After(st, |PrintTerm(t)|, r.facts, r.minted)))
    ensures !TermScoped(t, env) ==> ParseTerm(toks, st) == Err(TurtleError)
  {
    AtFirst(toks, st.i, PrintTerm(t));
    match t
    case IriTerm(i) =>
      IriParses(toks, st, i, env);
      AfterNothing(st, 1, st.minted);
    case Literal(_, _, _) =>
      LiteralParses(toks, st, t, env);
      AfterNothing(st, |PrintTerm(t)|, st.minted);
    case Boolean(b) =>
      AfterNothing(st, 1, st.minted);
    case Anon =>
      AnonParses(toks, st);
  }

  lemma BracketStep(toks: seq<Token>, st: State)
    requires st.i < |toks| && toks[st.i] == Punct(OpenBracket)
    ensures ParseTerm(toks, st) == ParseBracket(toks, st.(i := st.i + 1))
  {
  }

  lemma AnonParses(toks: seq<Token>, st: State)
    requires At(toks, st.i, [Punct(OpenBracket), Punct(CloseBracket)])
    ensures ParseTerm(toks, st) == Ok(Parsed(Label(st.minted + 1), After(st, 2, [], st.minted + 1)))
  {
    AtFirst(toks, st.i, [Punct(OpenBracket), Punct(CloseBracket)]);
    AtFirst(toks, st.i + 1, [Punct(OpenBracket), Punct(CloseBracket)][1..]);
    BracketStep(toks, st);
    AfterNothing(st, 2, st.minted + 1);
  }

  lemma LiteralParses(toks: seq<Token>, st: State, t: Term, env: Env)
    requires t.Literal? && TermOk(t) && Agrees(st, env)
    requires At(toks, st.i, PrintTerm(t)) && Calm(toks, st.i + |PrintTerm(t)|)
    ensures TermScoped(t, env) ==>
      ParseTerm(toks, st) == Ok(Parsed(TextValue(LiteralText(t.long, t.body)), st.(i := st.i + |PrintTerm(t)|)))
    ensures !TermScoped(t, env) ==> ParseTerm(toks, st) == Err(TurtleError)
  {
    hide LiteralText, IriScoped, Resolve;
    var text := LiteralText(t.long, t.body);
    var head := [if t.long then LongStr(text) else Str(text)];
    AtSplit(toks, st.i, head, PrintSuffix(t.suffix));
    AtFirst(toks, st.i, head);
    assert ParseTerm(toks, st) == ParseSuffix(toks, st.(i := st.i + 1), text);
    match t.suffix
    case NoSuffix =>
    case LangTag(tag) =>
      AtFirst(toks, st.i + 1, PrintSuffix(t.suffix));
    case Datatype(i) =>
      AtFirst(toks, st.i + 1, PrintSuffix(t.suffix));
      AtFirst(toks, st.i + 2, PrintSuffix(t.suffix)[1..]);
      IriParses(toks, st.(i := st.i + 2), i, env);
  }

  lemma {:induction false} PropertiesParse(toks: seq<Token>, st: State, pairs: Pairs, env: Env)
    requires PairsOk(pairs) && Agrees(st, env) && At(toks, st.i, PrintTerm(Properties(pairs)))
    ensures PairsScoped(pairs, env) ==>
      var r := ReadPairs(pairs, env, Blank(st.minted + 1), st.minted + 1);
      ParseTerm(toks, st) == Ok(Parsed(Label(st.minted + 1), After(st, |PrintPairs(pairs)| + 2, r.facts, r.minted)))
    ensures !PairsScoped(pairs, env) ==> ParseTerm(toks, st) == Err(TurtleError)
    decreases pairs, 2
  {
    hide PrintTerm, PrintPairs, ReadPairs, ParseTerm, ParsePairs, ParseBracket, PairsScoped, PairsOk, At, Written;
    PropertiesLayout(toks, st.i, pairs);
    BracketStep(toks, st);
    var inside := st.(i := st.i + 1, minted := st.minted + 1);
    PairsParse(toks, inside, pairs, Blank(st.minted + 1), env);
    BracketFinish(toks, st.(i := st.i + 1), ParsePairs(toks, inside, Label(st.minted + 1)));
  }

  lemma BracketFinish(toks: seq<Token>, st: State, pairs: Result<State>)
    requires !Sees(toks, st.i, Punct(CloseBracket))
    requires pairs == ParsePairs(toks, st.(minted := st.minted + 1), Label(st.minted + 1))
    requires pairs.Ok? ==> Sees(toks, pairs.value.i, Punct(CloseBracket))
    ensures ParseBracket(toks, st) ==
      if pairs.Ok? then Ok(Parsed(Label(st.minted + 1), pairs.value.(i := pairs.value.i + 1))) else Err(pairs.error)
  {
  }

  lemma PropertiesLayout(toks: seq<Token>, i: nat, pairs: Pairs)
    requires PairsOk(pairs) && At(toks, i, PrintTerm(Properties(pairs)))
    ensures i < |toks| && toks[i] == Punct(OpenBracket) && !Sees(toks, i + 1, Punct(CloseBracket))
    ensures At(toks, i + 1, PrintPairs(pairs)) && Sees(toks, i + 1 + |PrintPairs(pairs)|, Punct(CloseBracket))
  {
    assert PrintTerm(Properties(pairs)) == PrintProperties(pairs);
    AtSplit(toks, i, [Punct(OpenBracket)], PrintPairs(pairs) + [Punct(CloseBracket)]);
    AtFirst(toks, i, [Punct(OpenBracket)]);
    AtSplit(toks, i + 1, PrintPairs(pairs), [Punct(CloseBracket)]);
    AtFirst(toks, i + 1 + |PrintPairs(pairs)|, [Punct(CloseBracket)]);
    FirstOfPairs(pairs);
    AtFirst(toks, i + 1, PrintPairs(pairs));
  }

  lemma FirstOfPairs(ps: Pairs)
    requires PairsOk(ps)
    ensures PrintPairs(ps) != [] && PrintPairs(ps)[0] == PrintVerb(ps.verb)
    ensures Plain(PrintPairs(ps)[0])
  {
  }

  lemma {:induction false} ListMade(st: State, nodes: seq<Node>, k: nat, facts: seq<Fact>, minted: nat)
    requires nodes != []
    ensures MakeList(After(st, k, facts, minted), NodeValues(nodes)) ==
      Parsed(Label(minted + 1), After(st, k, facts + Cells(minted + 1, nodes), minted + |nodes|))
  {
    var cells := Cells(minted + 1, nodes);
    NodeValuesLength(nodes);
    CellsWritten(minted + 1, nodes);
    AfterAfter(st, k, 0, facts, cells, minted, minted + |nodes|);
  }

  lemma {:induction false} CollectionParses(toks: seq<Token>, st: State, items: Terms, env: Env)
    requires TermsOk(items) && Agrees(st, env) && At(toks, st.i, PrintTerm(Collection(items)))
    ensures TermsScoped(items, env) ==>
      var r := ReadTerm(Collection(items), env, st.minted);
      ParseTerm(toks, st) == Ok(Parsed(NodeValue(r.node), After(st, |PrintItems(items)| + 1, r.facts, r.minted)))
    ensures !TermsScoped(items, env) ==> ParseTerm(toks, st) == Err(TurtleError)
    decreases items, 2
  {
    assert PrintTerm(Collection(items)) == PrintCollection(items);
    AtSplit(toks, st.i, [Punct(OpenParen)], PrintItems(items));
    AtFirst(toks, st.i, [Punct(OpenParen)]);
    ItemsParse(toks, st.(i := st.i + 1), items, [], env);
    if TermsScoped(items, env) {
      CollectionFinish(toks, st, items, env);
    }
  }

  lemma CollectionFinish(toks: seq<Token>, st: State, items: Terms, env: Env)
    requires var r := ReadAll(items, env, st.minted);
      ParseItems(toks, st.(i := st.i + 1), []) ==
        Ok(ParsedItems([] + NodeValues(r.nodes), After(st.(i := st.i + 1), |PrintItems(items)|, r.facts, r.minted)))
    ensures var r := ReadTerm(Collection(items), env, st.minted);
      ParseCollection(toks, st.(i := st.i + 1)) ==
        Ok(Parsed(NodeValue(r.node), After(st, |PrintItems(items)| + 1, r.facts, r.minted)))
  {
    hide ReadAll, PrintItems, ParseItems, ParseCollection, NodeValues, Cells, Written, CellTriples;
    var inner := ReadAll(items, env, st.minted);
    var k := |PrintItems(items)| + 1;
    assert [] + NodeValues(inner.nodes) == NodeValues(inner.nodes);
    CollectionStep(toks, st.(i := st.i + 1), NodeValues(inner.nodes), After(st, k, inner.facts, inner.minted));
    NodeValuesLength(inner.nodes);
    if inner.nodes != [] {
      ListMade(st, inner.nodes, k, inner.facts, inner.minted);
    }
  }

  lemma CollectionStep(toks: seq<Token>, st: State, values: seq<Value>, end: State)
    requires ParseItems(toks, st, []) == Ok(ParsedItems(values, end))
    ensures ParseCollection(toks, st) == Ok(MakeList(end, values))
  {
  }

  lemma {:induction false} ItemsParse(toks: seq<Token>, st: State, ts: Terms, values: seq<Value>, env: Env)
    requires TermsOk(ts) && Agrees(st, env) && At(toks, st.i, PrintItems(ts))
    ensures TermsScoped(ts, env) ==>
      var r := ReadAll(ts, env, st.minted);
      ParseItems(toks, st, values) ==
        Ok(ParsedItems(values + NodeValues(r.nodes), After(st, |PrintItems(ts)|, r.facts, r.minted)))
    ensures !TermsScoped(ts, env) ==> ParseItems(toks, st, values) == Err(TurtleError)
    decreases ts, 1
  {
    if ts.NoTerms? {
      AtFirst(toks, st.i, PrintItems(ts));
      AfterNothing(st, 1, st.minted);
      assert values + [] == values;
    } else {
      var t, rest := ts.head, ts.tail;
      ItemsLayout(toks, st.i, t, rest);
      TermParses(toks, st, t, env);
      if TermScoped(t, env) {
        var r := ReadTerm(t, env, st.minted);
        var st1 := After(st, |PrintTerm(t)|, r.facts, r.minted);
        ItemsParse(toks, st1, rest, values + [NodeValue(r.node)], env);
        ItemsJoin(st, t, rest, values, env);
      }
    }
  }

  lemma ItemsJoin(st: State, t: Term, rest: Terms, values: seq<Value>, env: Env)
    ensures var r := ReadTerm(t, env, st.minted);
      var tail, all := ReadAll(rest, env, r.minted), ReadAll(ConsTerm(t, rest), env, st.minted);
      && values + [NodeValue(r.node)] + NodeValues(tail.nodes) == values + NodeValues(all.nodes)
      && After(After(st, |PrintTerm(t)|, r.facts, r.minted), |PrintItems(rest)|, tail.facts, tail.minted) ==
        After(st, |PrintItems(ConsTerm(t, rest))|, all.facts, all.minted)
  {
    hide PrintTerm, ReadTerm, Written;
    var r := ReadTerm(t, env, st.minted);
    var tail := ReadAll(rest, env, r.minted);
    AfterAfter(st, |PrintTerm(t)|, |PrintItems(rest)|, r.facts, tail.facts, r.minted, tail.minted);
    assert ([r.node] + tail.nodes)[1..] == tail.nodes;
    assert values + [NodeValue(r.node)] + NodeValues(tail.nodes) == values + NodeValues([r.node] + tail.nodes);
  }

  lemma ItemsLayout(toks: seq<Token>, i: nat, t: Term, rest: Terms)
    requires TermOk(t) && TermsOk(rest) && At(toks, i, PrintTerm(t) + PrintItems(rest))
    ensures At(toks, i, PrintTerm(t)) && At(toks, i + |PrintTerm(t)|, PrintItems(rest))
    ensures Calm(toks, i + |PrintTerm(t)|) && !Sees(toks, i, Punct(CloseParen)) && i < |toks|
  {
    AtSplit(toks, i, PrintTerm(t), PrintItems(rest));
    FirstOfTerm(t);
    AtFirst(toks, i, PrintTerm(t));
    if rest.ConsTerm? {
      FirstOfTerm(rest.head);
    }
    AtFirst(toks, i + |PrintTerm(t)|, PrintItems(rest));
  }

  lemma {:induction false} ObjectsParse(toks: seq<Token>, st: State, os: Objects, s: Node, p: string, env: Env)
    requires ObjectsOk(os) && Agrees(st, env) && At(toks, st.i, PrintObjects(os))
    requires Sees(toks, st.i + |PrintObjects(os)|, Punct(Semicolon)) || Closes(toks, st.i + |PrintObjects(os)|)
    ensures ObjectsScoped(os, env) ==>
      ParseObjects(toks, st, NodeValue(s), TextValue(p)) ==
        Ok(AfterRead(st, |PrintObjects(os)|, ReadObjects(os, env, s, p, st.minted)))
    ensures !ObjectsScoped(os, env) ==> ParseObjects(toks, st, NodeValue(s), TextValue(p)) == Err(TurtleError)
    decreases os, 2
  {
    hide PrintTerm, ReadTerm, ParseTerm, AfterObject, TermScoped, At, Written, Agrees;
    ObjectsLayout(toks, st.i, os);
    OneObjectParses(toks, st, os.item, s, p, env);
    if TermScoped(os.item, env) {
      var r := ReadTerm(os.item, env, st.minted);
      var first := ReadFacts(r.facts + [Fact(s, p, r.node)], r.minted);
      MoreObjectsParse(toks, st, |PrintTerm(os.item)|, first, os, s, p, env);
    }
  }

  lemma {:induction false} MoreObjectsParse(toks: seq<Token>, st: State, k: nat, first: ReadFacts, os: Objects,
                                            s: Node, p: string, env: Env)
    requires ObjectsOk(os) && Agrees(st, env)
    requires os.MoreObjects? ==> Sees(toks, st.i + k, Punct(Comma)) && At(toks, st.i + k + 1, PrintObjects(os.rest))
    requires var j := st.i + k + |ObjectsTail(os)|; Sees(toks, j, Punct(Semicolon)) || Closes(toks, j)
    ensures os.OneObject? || ObjectsScoped(os.rest, env) ==>
      AfterObject(toks, AfterRead(st, k, first), NodeValue(s), TextValue(p)) ==
        Ok(AfterRead(st, k + |ObjectsTail(os)|, ReadMoreObjects(os, env, s, p, first)))
    ensures os.MoreObjects? && !ObjectsScoped(os.rest, env) ==>
      AfterObject(toks, AfterRead(st, k, first), NodeValue(s), TextValue(p)) == Err(TurtleError)
    decreases os, 1
  {
    hide PrintTerm, ReadTerm, ParseTerm, ParseObjects, PrintObjects, ReadObjects, TermScoped, TermOk, At, Written;
    if os.MoreObjects? {
      ObjectsParse(toks, AfterRead(st, k + 1, first), os.rest, s, p, env);
      AfterThen(st, k + 1, |PrintObjects(os.rest)|, first, ReadObjects(os.rest, env, s, p, first.minted));
    }
  }

  /** One object, up to what follows it. */
  lemma {:induction false} OneObjectParses(toks: seq<Token>, st: State, t: Term, s: Node, p: string, env: Env)
    requires TermOk(t) && Agrees(st, env) && At(toks, st.i, PrintTerm(t)) && Calm(toks, st.i + |PrintTerm(t)|)
    ensures TermScoped(t, env) ==>
      var r := ReadTerm(t, env, st.minted);
      var facts, k := r.facts + [Fact(s, p, r.node)], |PrintTerm(t)|;
      ParseObjects(toks, st, NodeValue(s), TextValue(p)) ==
        AfterObject(toks, After(st, k, facts, r.minted), NodeValue(s), TextValue(p))
    ensures !TermScoped(t, env) ==> ParseObjects(toks, st, NodeValue(s), TextValue(p)) == Err(TurtleError)
    decreases t, 1
  {
    TermParses(toks, st, t, env);
    if TermScoped(t, env) {
      var r := ReadTerm(t, env, st.minted);
      OneMore(st, |PrintTerm(t)|, r.facts, Fact(s, p, r.node), r.minted);
    }
  }

  lemma OneMore(st: State, i: nat, facts: seq<Fact>, f: Fact, minted: nat)
    ensures var st1 := After(st, i, facts, minted);
      st1.(triples := st1.triples + [Triple(NodeValue(f.s), TextValue(f.p), NodeValue(f.o))]) ==
        After(st, i, facts + [f], minted)
  {
    WrittenAppend(facts, [f]);
    assert Written([f]) == [Triple(NodeValue(f.s), TextValue(f.p), NodeValue(f.o))] + Written([]);
  }

  lemma ObjectsLayout(toks: seq<Token>, i: nat, os: Objects)
    requires At(toks, i, PrintObjects(os))
    ensures At(toks, i, PrintTerm(os.item)) && |PrintObjects(os)| == |PrintTerm(os.item)| + |ObjectsTail(os)|
    ensures os.MoreObjects? ==>
      var j := i + |PrintTerm(os.item)|;
      Sees(toks, j, Punct(Comma)) && At(toks, j + 1, PrintObjects(os.rest)) && |ObjectsTail(os)| == 1 + |PrintObjects(os.rest)|
  {
    AtSplit(toks, i, PrintTerm(os.item), ObjectsTail(os));
    if os.MoreObjects? {
      AtSplit(toks, i + |PrintTerm(os.item)|, [Punct(Comma)], PrintObjects(os.rest));
      AtFirst(toks, i + |PrintTerm(os.item)|, [Punct(Comma)]);
    }
  }

  lemma VerbParses(toks: seq<Token>, st: State, v: Verb, env: Env)
    requires VerbOk(v) && Agrees(st, env) && st.i < |toks| && toks[st.i] == PrintVerb(v)
    ensures ParseTerm(toks, st) ==
      if VerbScoped(v, env) then Ok(Parsed(TextValue(VerbIri(v, env)), st.(i := st.i + 1))) else Err(TurtleError)
  {
    if v.IriVerb? {
      IriParses(toks, st, v.iri, env);
    }
  }

  lemma PairsLayout(toks: seq<Token>, i: nat, ps: Pairs)
    requires PairsOk(ps) && At(toks, i, PrintPairs(ps)) && Closes(toks, i + |PrintPairs(ps)|)
    ensures |PrintPairs(ps)| == 1 + |PrintObjects(ps.objects)| + |PairsTail(ps)|
    ensures i < |toks| && toks[i] == PrintVerb(ps.verb)
    ensures var j := i + 1 + |PrintObjects(ps.objects)|;
      At(toks, i + 1, PrintObjects(ps.objects)) && At(toks, j, PairsTail(ps)) && Closes(toks, j + |PairsTail(ps)|)
  {
    AtSplit(toks, i, [PrintVerb(ps.verb)], AfterVerb(ps));
    AtFirst(toks, i, [PrintVerb(ps.verb)]);
    AtSplit(toks, i + 1, PrintObjects(ps.objects), PairsTail(ps));
  }

  lemma TailLayout(toks: seq<Token>, i: nat, ps: Pairs)
    requires PairsOk(ps) && At(toks, i, PairsTail(ps)) && Closes(toks, i + |PairsTail(ps)|)
    ensures PairsTail(ps) == [] ==> Closes(toks, i)
    ensures PairsTail(ps) != [] ==> Sees(toks, i, Punct(Semicolon))
    ensures ps.LastPair? ==> |PairsTail(ps)| <= 1
    ensures ps.MorePairs? ==>
      At(toks, i + 1, PrintPairs(ps.rest)) && !Closes(toks, i + 1) && |PairsTail(ps)| == 1 + |PrintPairs(ps.rest)|
  {
    if PairsTail(ps) != [] {
      AtFirst(toks, i, PairsTail(ps));
    }
    if ps.MorePairs? {
      AtSplit(toks, i, [Punct(Semicolon)], PrintPairs(ps.rest));
      FirstOfPairs(ps.rest);
      AtFirst(toks, i + 1, PrintPairs(ps.rest));
    }
  }

  lemma {:induction false} PairsParse(toks: seq<Token>, st: State, ps: Pairs, s: Node, env: Env)
    requires PairsOk(ps) && Agrees(st, env) && At(toks, st.i, PrintPairs(ps))
    requires Closes(toks, st.i + |PrintPairs(ps)|)
    ensures PairsScoped(ps, env) ==>
      ParsePairs(toks, st, NodeValue(s)) == Ok(AfterRead(st, |PrintPairs(ps)|, ReadPairs(ps, env, s, st.minted)))
    ensures !PairsScoped(ps, env) ==> ParsePairs(toks, st, NodeValue(s)) == Err(TurtleError)
    decreases ps, 1
  {
    hide At, Closes, PrintObjects, PairsTail, ReadObjects, ParseTerm, ParsePairs, ParseObjects,
      AfterObjects, ObjectsScoped, VerbScoped, VerbOk, ObjectsOk, Written, VerbIri;
    PairsLayout(toks, st.i, ps);
    FirstPairParses(toks, st, ps, s, env);
    if FirstPairScoped(ps, env) {
      var first := ReadObjects(ps.objects, env, s, VerbIri(ps.verb, env), st.minted);
      MorePairsParse(toks, st, |PrintObjects(ps.objects)| + 1, first, ps, s, env);
    }
  }

  lemma {:induction false} MorePairsParse(toks: seq<Token>, st: State, k: nat, first: ReadFacts, ps: Pairs, s: Node, env: Env)
    requires PairsOk(ps) && Agrees(st, env)
    requires At(toks, st.i + k, PairsTail(ps)) && Closes(toks, st.i + k + |PairsTail(ps)|)
    ensures ps.LastPair? || PairsScoped(ps.rest, env) ==>
      AfterObjects(toks, AfterRead(st, k, first), NodeValue(s)) ==
        Ok(AfterRead(st, k + |PairsTail(ps)|, ReadMorePairs(ps, env, s, first)))
    ensures ps.MorePairs? && !PairsScoped(ps.rest, env) ==>
      AfterObjects(toks, AfterRead(st, k, first), NodeValue(s)) == Err(TurtleError)
    decreases ps, 0
  {
    TailLayout(toks, st.i + k, ps);
    if ps.MorePairs? {
      PairsParse(toks, AfterRead(st, k + 1, first), ps.rest, s, env);
      AfterThen(st, k + 1, |PrintPairs(ps.rest)|, first, ReadPairs(ps.rest, env, s, first.minted));
    }
  }

  predicate FirstPairScoped(ps: Pairs, env: Env) {
    VerbScoped(ps.verb, env) && ObjectsScoped(ps.objects, env)
  }

  /** One verb with its objects, up to what follows them. */
  lemma {:induction false} FirstPairParses(toks: seq<Token>, st: State, ps: Pairs, s: Node, env: Env)
    requires PairsOk(ps) && Agrees(st, env) && At(toks, st.i, PrintPairs(ps))
    requires Closes(toks, st.i + |PrintPairs(ps)|)
    ensures FirstPairScoped(ps, env) ==>
      var r := ReadObjects(ps.objects, env, s, VerbIri(ps.verb, env), st.minted);
      ParsePairs(toks, st, NodeValue(s)) == AfterObjects(toks, AfterRead(st, |PrintObjects(ps.objects)| + 1, r), NodeValue(s))
    ensures !FirstPairScoped(ps, env) ==> ParsePairs(toks, st, NodeValue(s)) == Err(TurtleError)
    decreases ps.objects, 3
  {
    hide At, Closes, PrintObjects, PrintPairs, AfterVerb, PairsTail, ReadObjects, ParseTerm, ParseObjects,
      AfterObjects, ObjectsScoped, VerbScoped, VerbOk, ObjectsOk, Written, VerbIri, PrintVerb;
    PairsLayout(toks, st.i, ps);
    TailLayout(toks, st.i + 1 + |PrintObjects(ps.objects)|, ps);
    VerbParses(toks, st, ps.verb, env);
    if VerbScoped(ps.verb, env) {
      var p := VerbIri(ps.verb, env);
      var st1 := st.(i := st.i + 1);
      ObjectsParse(toks, st1, ps.objects, s, p, env);
      if ObjectsScoped(ps.objects, env) {
        var r := ReadObjects(ps.objects, env, s, p, st.minted);
      }
    }
  }
}
