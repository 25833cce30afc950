/** What an abstract document means (RDF 1.1 Turtle, sections 2.8 and 7.3): a bag of triples over blank
    nodes named by where they are written, independent of any order of reading. */
module TurtleMeaning {
  import opened TurtleSyntax
  import opened TurtleParser

  // ----- Names in scope

  datatype Env = Env(prefixes: map<string, string>, base: string)

  const NO_ENV := Env(map[], "")

  /** A relative IRI is appended to the base, as the parser does it. */
  function ResolveFull(text: string, env: Env): string {
    if ':' in text then text else env.base + text
  }

  function Resolve(i: IriName, env: Env): string {
    match i
    case FullIri(text) => ResolveFull(text, env)
    case Prefixed(prefix, local) => (if prefix in env.prefixes then env.prefixes[prefix] else "") + local
  }

  function VerbIri(v: Verb, env: Env): string {
    match v
    case TypeVerb => RDF_TYPE
    case IriVerb(i) => Resolve(i, env)
  }

  predicate IriScoped(i: IriName, env: Env) {
    i.Prefixed? ==> i.prefix in env.prefixes
  }

  predicate VerbScoped(v: Verb, env: Env) {
    v.IriVerb? ==> IriScoped(v.iri, env)
  }

  /** Every prefix a term uses has been declared. */
  predicate TermScoped(t: Term, env: Env)
    decreases t
  {
    match t
    case IriTerm(i) => IriScoped(i, env)
    case Literal(_, _, suffix) => suffix.Datatype? ==> IriScoped(suffix.iri, env)
    case Boolean(_) => true
    case Anon => true
    case Properties(pairs) => PairsScoped(pairs, env)
    case Collection(items) => TermsScoped(items, env)
  }

  predicate TermsScoped(ts: Terms, env: Env)
    decreases ts
  {
    ts.ConsTerm? ==> TermScoped(ts.head, env) && TermsScoped(ts.tail, env)
  }

  predicate ObjectsScoped(os: Objects, env: Env)
    decreases os
  {
    TermScoped(os.item, env) && (os.MoreObjects? ==> ObjectsScoped(os.rest, env))
  }

  predicate PairsScoped(ps: Pairs, env: Env)
    decreases ps
  {
    VerbScoped(ps.verb, env) && ObjectsScoped(ps.objects, env) && (ps.MorePairs? ==> PairsScoped(ps.rest, env))
  }

  predicate StatementScoped(s: Statement, env: Env) {
    s.Triples? ==> TermScoped(s.subject, env) && PairsScoped(s.pairs, env)
  }

  function EnvAfter(s: Statement, env: Env): Env {
    match s
    case PrefixDecl(prefix, iri) => env.(prefixes := env.prefixes[prefix := ResolveFull(iri, env)])
    case BaseDecl(iri) => env.(base := ResolveFull(iri, env))
    case Triples(_, _) => env
  }

  predicate DocumentScoped(d: seq<Statement>, env: Env) {
    d == [] || (StatementScoped(d[0], env) && DocumentScoped(d[1..], EnvAfter(d[0], env)))
  }

  // ----- Triples over places

  /** A blank node's place: the path to the construct that introduces it, and its number there (0 for
      `[ ]`, the cell's index for a collection). */
  datatype Place = Place(path: seq<nat>, index: nat)

  datatype PlacedNode = Fixed(value: Value) | AtPlace(place: Place)

  datatype PlacedFact = PlacedFact(s: PlacedNode, p: string, o: PlacedNode)

  datatype Meaning = Meaning(node: PlacedNode, facts: multiset<PlacedFact>)

  datatype ItemsMeaning = ItemsMeaning(nodes: seq<PlacedNode>, facts: multiset<PlacedFact>)

  function FixedText(s: string): PlacedNode {
    Fixed(TextValue(s))
  }

  function TermMeans(t: Term, env: Env, path: seq<nat>): Meaning
    decreases t
  {
    match t
    case IriTerm(i) => Meaning(FixedText(Resolve(i, env)), multiset{})
    case Literal(long, body, _) => Meaning(FixedText(LiteralText(long, body)), multiset{})
    case Boolean(b) => Meaning(Fixed(BoolValue(b)), multiset{})
    case Anon => Meaning(AtPlace(Place(path, 0)), multiset{})
    case Properties(pairs) =>
      var node := AtPlace(Place(path, 0));
      Meaning(node, PairsMean(pairs, env, node, path))
    case Collection(items) =>
      var inner := ItemsMean(items, env, path);
      Meaning(if inner.nodes == [] then FixedText(RDF_NIL) else AtPlace(Place(path, 0)),
              inner.facts + CellsMean(path, 0, inner.nodes))
  }

  /** The items of a list, each below its own path. */
  function ItemsMean(ts: Terms, env: Env, path: seq<nat>): ItemsMeaning
    decreases ts
  {
    match ts
    case NoTerms => ItemsMeaning([], multiset{})
    case ConsTerm(t, rest) =>
      var head := TermMeans(t, env, path + [0]);
      var tail := ItemsMean(rest, env, path + [1]);
      ItemsMeaning([head.node] + tail.nodes, head.facts + tail.facts)
  }

  /** Section 2.8: one first and one rest arc per item, the last rest being nil. */
  function CellsMean(path: seq<nat>, index: nat, nodes: seq<PlacedNode>): multiset<PlacedFact>
    decreases |nodes|
  {
    if nodes == [] then multiset{}
    else
      var cell := AtPlace(Place(path, index));
      var rest := if |nodes| > 1 then AtPlace(Place(path, index + 1)) else FixedText(RDF_NIL);
      multiset{PlacedFact(cell, RDF_FIRST, nodes[0]), PlacedFact(cell, RDF_REST, rest)} + CellsMean(path, index + 1, nodes[1..])
  }

  function ObjectsMean(os: Objects, env: Env, s: PlacedNode, p: string, path: seq<nat>): multiset<PlacedFact>
    decreases os
  {
    var o := TermMeans(os.item, env, path + [0]);
    multiset{PlacedFact(s, p, o.node)} + o.facts +
    if os.MoreObjects? then ObjectsMean(os.rest, env, s, p, path + [1]) else multiset{}
  }

  function PairsMean(ps: Pairs, env: Env, s: PlacedNode, path: seq<nat>): multiset<PlacedFact>
    decreases ps
  {
    ObjectsMean(ps.objects, env, s, VerbIri(ps.verb, env), path + [0]) +
    if ps.MorePairs? then PairsMean(ps.rest, env, s, path + [1]) else multiset{}
  }

  function StatementMeans(s: Statement, env: Env, path: seq<nat>): multiset<PlacedFact> {
    match s
    case PrefixDecl(_, _) => multiset{}
    case BaseDecl(_) => multiset{}
    case Triples(subject, pairs) =>
      var head := TermMeans(subject, env, path + [0]);
      head.facts + PairsMean(pairs, env, head.node, path + [1])
  }

  function DocumentMeans(d: seq<Statement>, env: Env, path: seq<nat>): multiset<PlacedFact> {
    if d == [] then multiset{}
    else StatementMeans(d[0], env, path + [0]) + DocumentMeans(d[1..], EnvAfter(d[0], env), path + [1])
  }
}
