/** Tokens, abstract documents and their printing, for the Turtle subset of `scripts/nsgen.py`
    (RDF 1.1 Turtle, sections 2 and 6.5). */
module TurtleSyntax {

  datatype Mark = Dot | Semicolon | Comma | OpenParen | CloseParen | OpenBracket | CloseBracket

  /** A token by kind, with its text. Punctuation and `^^` are the only kinds with these fixed texts, and
      directives the only ones starting with `@`, so comparing kinds is comparing texts. */
  datatype Token =
    | LongStr(text: string)
    | Str(text: string)
    | Iri(text: string)
    | Directive(text: string)
    | Caret
    | Punct(mark: Mark)
    | PName(text: string)
    | Word(text: string)
    | Number(text: string)

  function MarkText(m: Mark): string {
    match m
    case Dot => "."
    case Semicolon => ";"
    case Comma => ","
    case OpenParen => "("
    case CloseParen => ")"
    case OpenBracket => "["
    case CloseBracket => "]"
  }

  function TokenText(t: Token): string {
    match t
    case Caret => "^^"
    case Punct(m) => MarkText(m)
    case LongStr(text) => text
    case Str(text) => text
    case Iri(text) => text
    case Directive(text) => text
    case PName(text) => text
    case Word(text) => text
    case Number(text) => text
  }

  // ----- Abstract documents

  datatype IriName = FullIri(text: string) | Prefixed(prefix: string, local: string)

  datatype Verb = TypeVerb | IriVerb(iri: IriName)

  datatype Suffix = NoSuffix | LangTag(tag: string) | Datatype(iri: IriName)

  datatype Term =
    | IriTerm(iri: IriName)
    | Literal(long: bool, body: string, suffix: Suffix)
    | Boolean(value: bool)
    | Anon
    | Properties(pairs: Pairs)
    | Collection(items: Terms)

  datatype Terms = NoTerms | ConsTerm(head: Term, tail: Terms)

  /** An object list: one or more objects, separated by commas. */
  datatype Objects = OneObject(item: Term) | MoreObjects(item: Term, rest: Objects)

  /** A predicate-object list; a `;` may trail the last pair. */
  datatype Pairs =
    | LastPair(verb: Verb, objects: Objects, trailing: bool)
    | MorePairs(verb: Verb, objects: Objects, rest: Pairs)

  datatype Statement =
    | PrefixDecl(prefix: string, iri: string)
    | BaseDecl(iri: string)
    | Triples(subject: Term, pairs: Pairs)

  // ----- Printing

  function PrintIri(i: IriName): Token {
    match i
    case FullIri(text) => Iri("<" + text + ">")
    case Prefixed(prefix, local) => PName(prefix + ":" + local)
  }

  function PrintVerb(v: Verb): Token {
    match v
    case TypeVerb => Word("a")
    case IriVerb(i) => PrintIri(i)
  }

  function LiteralText(long: bool, body: string): string {
    if long then "\"\"\"" + body + "\"\"\"" else "\"" + body + "\""
  }

  function PrintSuffix(s: Suffix): seq<Token> {
    match s
    case NoSuffix => []
    case LangTag(tag) => [Directive("@" + tag)]
    case Datatype(i) => [Caret, PrintIri(i)]
  }

  function PrintTerm(t: Term): seq<Token>
    decreases t, 2
  {
    match t
    case IriTerm(i) => [PrintIri(i)]
    case Literal(long, body, suffix) => PrintLiteral(long, body, suffix)
    case Boolean(b) => [Word(if b then "true" else "false")]
    case Anon => [Punct(OpenBracket), Punct(CloseBracket)]
    case Properties(pairs) => PrintProperties(pairs)
    case Collection(items) => PrintCollection(items)
  }

  function PrintLiteral(long: bool, body: string, suffix: Suffix): seq<Token> {
    [if long then LongStr(LiteralText(long, body)) else Str(LiteralText(long, body))] + PrintSuffix(suffix)
  }

  function PrintProperties(pairs: Pairs): seq<Token>
    decreases pairs, 3
  {
    [Punct(OpenBracket)] + (PrintPairs(pairs) + [Punct(CloseBracket)])
  }

  function PrintCollection(items: Terms): seq<Token>
    decreases items, 3
  {
    [Punct(OpenParen)] + PrintItems(items)
  }

  /** The items and the closing parenthesis. */
  function PrintItems(ts: Terms): seq<Token>
    decreases ts, 2
  {
    match ts
    case NoTerms => [Punct(CloseParen)]
    case ConsTerm(t, rest) => PrintTerm(t) + PrintItems(rest)
  }

  function PrintObjects(os: Objects): seq<Token>
    decreases os, 1
  {
    PrintTerm(os.item) + ObjectsTail(os)
  }

  /** What follows the first object. */
  function ObjectsTail(os: Objects): seq<Token>
    decreases os, 0
  {
    match os
    case OneObject(_) => []
    case MoreObjects(_, rest) => [Punct(Comma)] + PrintObjects(rest)
  }

  function PrintPairs(ps: Pairs): seq<Token>
    decreases ps, 2
  {
    [PrintVerb(ps.verb)] + AfterVerb(ps)
  }

  function AfterVerb(ps: Pairs): seq<Token>
    decreases ps, 1
  {
    PrintObjects(ps.objects) + PairsTail(ps)
  }

  /** What follows the objects of the first verb. */
  function PairsTail(ps: Pairs): seq<Token>
    decreases ps, 0
  {
    match ps
    case LastPair(_, _, trailing) => if trailing then [Punct(Semicolon)] else []
    case MorePairs(_, _, rest) => [Punct(Semicolon)] + PrintPairs(rest)
  }

  function PrintStatement(s: Statement): seq<Token> {
    match s
    case PrefixDecl(prefix, iri) =>
      [Directive("@prefix"), PName(prefix + ":"), PrintIri(FullIri(iri)), Punct(Dot)]
    case BaseDecl(iri) => [Directive("@base"), PrintIri(FullIri(iri)), Punct(Dot)]
    case Triples(subject, pairs) => PrintTerm(subject) + (PrintPairs(pairs) + [Punct(Dot)])
  }

  function PrintDocument(d: seq<Statement>): seq<Token> {
    if d == [] then [] else PrintStatement(d[0]) + PrintDocument(d[1..])
  }

  // ----- Prefixes the tokenizer can read back

  predicate PrefixOk(prefix: string) {
    |prefix| > 0 && ':' !in prefix
  }

  predicate IriOk(i: IriName) {
    i.Prefixed? ==> PrefixOk(i.prefix)
  }

  predicate VerbOk(v: Verb) {
    v.IriVerb? ==> IriOk(v.iri)
  }

  predicate TermOk(t: Term)
    decreases t
  {
    match t
    case IriTerm(i) => IriOk(i)
    case Literal(_, _, suffix) => suffix.Datatype? ==> IriOk(suffix.iri)
    case Boolean(_) => true
    case Anon => true
    case Properties(pairs) => PairsOk(pairs)
    case Collection(items) => TermsOk(items)
  }

  predicate TermsOk(ts: Terms)
    decreases ts
  {
    ts.ConsTerm? ==> TermOk(ts.head) && TermsOk(ts.tail)
  }

  predicate ObjectsOk(os: Objects)
    decreases os
  {
    TermOk(os.item) && (os.MoreObjects? ==> ObjectsOk(os.rest))
  }

  predicate PairsOk(ps: Pairs)
    decreases ps
  {
    VerbOk(ps.verb) && ObjectsOk(ps.objects) && (ps.MorePairs? ==> PairsOk(ps.rest))
  }

  predicate StatementOk(s: Statement) {
    match s
    case PrefixDecl(prefix, _) => PrefixOk(prefix)
    case BaseDecl(_) => true
    case Triples(subject, pairs) => TermOk(subject) && PairsOk(pairs)
  }
}
