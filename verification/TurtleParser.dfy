/** The recursive parser of `scripts/nsgen.py`: a token cursor, the prefixes and base declared so far,
    the triples emitted and the blank nodes minted. */
module TurtleParser {
  import opened Text
  import opened TurtleSyntax

  const RDF_TYPE := "http://www.w3.org/1999/02/22-rdf-syntax-ns#type"
  const RDF_NIL := "http://www.w3.org/1999/02/22-rdf-syntax-ns#nil"
  const RDF_FIRST := "http://www.w3.org/1999/02/22-rdf-syntax-ns#first"
  const RDF_REST := "http://www.w3.org/1999/02/22-rdf-syntax-ns#rest"

  /** What a term parses to: a string (an IRI, a quoted literal or a blank node label) or a boolean. */
  datatype Value = TextValue(text: string) | BoolValue(flag: bool)

  datatype Triple = Triple(s: Value, p: Value, o: Value)

  /** The parser's own error, and the exceptions Python raises for misused values. */
  datatype Error = TurtleError | TypeError | KeyError

  datatype Result<+T> = Ok(value: T) | Err(error: Error) {
    predicate IsFailure() {
      Err?
    }
    function PropagateFailure<U>(): Result<U>
      requires Err?
    {
      Err(error)
    }
    function Extract(): T
      requires Ok?
    {
      value
    }
  }

  /** The prefixes and the base declared so far. */
  datatype Scope = Scope(prefixes: map<string, Value>, base: Value)

  datatype State = State(i: nat, scope: Scope, triples: seq<Triple>, minted: nat)

  datatype Parsed = Parsed(value: Value, st: State)

  datatype ParsedItems = ParsedItems(values: seq<Value>, st: State)

  function Initial(): State {
    State(0, Scope(map[], TextValue("")), [], 0)
  }

  // ----- Text helpers

  /** `text[1:-1]` */
  function Inner(text: string): string {
    if |text| < 2 then "" else text[1..|text| - 1]
  }

  function StripColons(text: string): string {
    if text != "" && text[|text| - 1] == ':' then StripColons(text[..|text| - 1]) else text
  }

  function Label(n: nat): Value {
    TextValue("_:b" + Decimal(n))
  }

  function ResolveIri(text: string, base: Value): Result<Value> {
    var inner := Inner(text);
    if ':' in inner then Ok(TextValue(inner))
    else if base.TextValue? then Ok(TextValue(base.text + inner))
    else Err(TypeError)
  }

  function ResolvePName(text: string, prefixes: map<string, Value>): Result<Value> {
    var prefix := BeforeColon(text);
    if prefix !in prefixes then Err(TurtleError)
    else if prefixes[prefix].TextValue? then Ok(TextValue(prefixes[prefix].text + AfterColon(text)))
    else Err(TypeError)
  }

  // ----- The parser as functions of its state

  predicate Sees(toks: seq<Token>, i: nat, tok: Token) {
    i < |toks| && toks[i] == tok
  }

  /** A `.` or a `]`. */
  predicate Closes(toks: seq<Token>, i: nat) {
    Sees(toks, i, Punct(Dot)) || Sees(toks, i, Punct(CloseBracket))
  }

  predicate SeesTag(toks: seq<Token>, i: nat) {
    i < |toks| && toks[i].Directive?
  }

  /** The tokens a term begins with. */
  predicate BeginsTerm(tok: Token) {
    || tok.Iri? || tok.PName? || tok.Str? || tok.LongStr?
    || tok in {Word("true"), Word("false"), Word("a"), Punct(OpenParen), Punct(OpenBracket)}
  }

  function Expect(toks: seq<Token>, st: State, tok: Token): Result<State> {
    if Sees(toks, st.i, tok) then Ok(st.(i := st.i + 1)) else Err(TurtleError)
  }

  /** The first/rest cells of a list, labelled from `first` on. */
  function CellTriples(first: nat, items: seq<Value>): seq<Triple>
    decreases |items|
  {
    if items == [] then []
    else
      [Triple(Label(first), TextValue(RDF_FIRST), items[0]),
       Triple(Label(first), TextValue(RDF_REST), if |items| > 1 then Label(first + 1) else TextValue(RDF_NIL))]
      + CellTriples(first + 1, items[1..])
  }

  function MakeList(st: State, items: seq<Value>): Parsed {
    if items == [] then Parsed(TextValue(RDF_NIL), st)
    else Parsed(Label(st.minted + 1),
                st.(minted := st.minted + |items|, triples := st.triples + CellTriples(st.minted + 1, items)))
  }

  function ParseTerm(toks: seq<Token>, st: State): (r: Result<Parsed>)
    ensures r.Ok? ==> st.i < r.value.st.i <= |toks|
    decreases |toks| - st.i, 1
  {
    if st.i >= |toks| then Err(TurtleError) else ParseToken(toks, st.(i := st.i + 1), toks[st.i])
  }

  /** A term whose first token, `tok`, has just been read. */
  function ParseToken(toks: seq<Token>, st: State, tok: Token): (r: Result<Parsed>)
    ensures r.Ok? && st.i <= |toks| ==> st.i <= r.value.st.i <= |toks|
    decreases |toks| - st.i, 4
  {
    match tok
    case Iri(text) =>
      var v :- ResolveIri(text, st.scope.base);
      Ok(Parsed(v, st))
    case PName(text) =>
      var v :- ResolvePName(text, st.scope.prefixes);
      Ok(Parsed(v, st))
    case Word(text) =>
      if text == "true" || text == "false" then Ok(Parsed(BoolValue(text == "true"), st))
      else if text == "a" then Ok(Parsed(TextValue(RDF_TYPE), st))
      else Err(TurtleError)
    case Str(text) => ParseSuffix(toks, st, text)
    case LongStr(text) => ParseSuffix(toks, st, text)
    case Punct(OpenParen) => ParseCollection(toks, st)
    case Punct(OpenBracket) => ParseBracket(toks, st)
    case _ => Err(TurtleError)
  }

  /** After a string literal: its language tag or datatype is read and dropped. */
  function ParseSuffix(toks: seq<Token>, st: State, text: string): (r: Result<Parsed>)
    ensures r.Ok? && st.i <= |toks| ==> st.i <= r.value.st.i <= |toks|
    decreases |toks| - st.i, 2
  {
    if SeesTag(toks, st.i) then Ok(Parsed(TextValue(text), st.(i := st.i + 1)))
    else if Sees(toks, st.i, Caret) then
      var ignored :- ParseTerm(toks, st.(i := st.i + 1));
      Ok(Parsed(TextValue(text), ignored.st))
    else Ok(Parsed(TextValue(text), st))
  }

  /** After `(`. */
  function ParseCollection(toks: seq<Token>, st: State): (r: Result<Parsed>)
    ensures r.Ok? ==> st.i < r.value.st.i <= |toks|
    decreases |toks| - st.i, 3
  {
    var items :- ParseItems(toks, st, []);
    Ok(MakeList(items.st, items.values))
  }

  /** After `[`. */
  function ParseBracket(toks: seq<Token>, st: State): (r: Result<Parsed>)
    ensures r.Ok? ==> st.i < r.value.st.i <= |toks|
    decreases |toks| - st.i, 3
  {
    var node, st := Label(st.minted + 1), st.(minted := st.minted + 1);
    if Sees(toks, st.i, Punct(CloseBracket)) then Ok(Parsed(node, st.(i := st.i + 1)))
    else
      var st :- ParsePairs(toks, st, node);
      var st :- Expect(toks, st, Punct(CloseBracket));
      Ok(Parsed(node, st))
  }

  function ParseItems(toks: seq<Token>, st: State, values: seq<Value>): (r: Result<ParsedItems>)
    ensures r.Ok? ==> st.i < r.value.st.i <= |toks|
    decreases |toks| - st.i, 2
  {
    if st.i >= |toks| then Err(TurtleError)
    else if Sees(toks, st.i, Punct(CloseParen)) then Ok(ParsedItems(values, st.(i := st.i + 1)))
    else
      var item :- ParseTerm(toks, st);
      ParseItems(toks, item.st, values + [item.value])
  }

  function ParseObjects(toks: seq<Token>, st: State, s: Value, p: Value): (r: Result<State>)
    ensures r.Ok? ==> st.i < r.value.i <= |toks|
    decreases |toks| - st.i, 2
  {
    var o :- ParseTerm(toks, st);
    AfterObject(toks, o.st.(triples := o.st.triples + [Triple(s, p, o.value)]), s, p)
  }

  /** One object has been emitted; a comma brings another. */
  function AfterObject(toks: seq<Token>, st: State, s: Value, p: Value): (r: Result<State>)
    ensures r.Ok? && st.i <= |toks| ==> st.i <= r.value.i <= |toks|
    decreases |toks| - st.i, 0
  {
    if Sees(toks, st.i, Punct(Comma)) then ParseObjects(toks, st.(i := st.i + 1), s, p) else Ok(st)
  }

  function ParsePairs(toks: seq<Token>, st: State, s: Value): (r: Result<State>)
    ensures r.Ok? ==> st.i < r.value.i <= |toks|
    decreases |toks| - st.i, 2
  {
    var p :- ParseTerm(toks, st);
    var st :- ParseObjects(toks, p.st, s, p.value);
    AfterObjects(toks, st, s)
  }

  /** The objects of one verb are done; a `;` may bring another verb, or trail. */
  function AfterObjects(toks: seq<Token>, st: State, s: Value): (r: Result<State>)
    ensures r.Ok? && st.i <= |toks| ==> st.i <= r.value.i <= |toks|
    decreases |toks| - st.i, 0
  {
    if !Sees(toks, st.i, Punct(Semicolon)) then Ok(st)
    else if Closes(toks, st.i + 1) then Ok(st.(i := st.i + 1))
    else ParsePairs(toks, st.(i := st.i + 1), s)
  }

  function ParseStatement(toks: seq<Token>, st: State): (r: Result<State>)
    ensures r.Ok? ==> st.i < r.value.i <= |toks|
  {
    var s :- ParseTerm(toks, st);
    var st :- ParsePairs(toks, s.st, s.value);
    Expect(toks, st, Punct(Dot))
  }

  function ParseDirective(toks: seq<Token>, st: State): (r: Result<State>)
    requires st.i < |toks|
    ensures r.Ok? ==> st.i < r.value.i <= |toks|
  {
    var name := TokenText(toks[st.i]);
    var st := st.(i := st.i + 1);
    if name == "@prefix" then
      if st.i >= |toks| then Err(TurtleError)
      else
        var pname := TokenText(toks[st.i]);
        var v :- ParseTerm(toks, st.(i := st.i + 1));
        Expect(toks, v.st.(scope := v.st.scope.(prefixes := v.st.scope.prefixes[StripColons(pname) := v.value])), Punct(Dot))
    else if name == "@base" then
      var v :- ParseTerm(toks, st);
      Expect(toks, v.st.(scope := v.st.scope.(base := v.value)), Punct(Dot))
    else Err(TurtleError)
  }

  function ParseNext(toks: seq<Token>, st: State): (r: Result<State>)
    requires st.i < |toks|
    ensures r.Ok? ==> st.i < r.value.i <= |toks|
  {
    if toks[st.i].Directive? then ParseDirective(toks, st) else ParseStatement(toks, st)
  }

  function ParseDocument(toks: seq<Token>, st: State): (r: Result<State>)
    ensures r.Ok? ==> st.i <= r.value.i && r.value.i >= |toks|
    decreases |toks| - st.i
  {
    if st.i >= |toks| then Ok(st)
    else
      var st :- ParseNext(toks, st);
      ParseDocument(toks, st)
  }

  // ----- The code itself

  class Parser {
    const tokens: seq<Token>
    var i: nat
    var prefixes: map<string, Value>
    var base: Value
    var triples: seq<Triple>
    var minted: nat

    constructor (tokens: seq<Token>)
      ensures this.tokens == tokens && Now() == Initial()
    {
      this.tokens := tokens;
      i, prefixes, base, triples, minted := 0, map[], TextValue(""), [], 0;
    }

    function Now(): State
      reads this
    {
      State(i, Scope(prefixes, base), triples, minted)
    }

    method Next() returns (tok: Result<Token>)
      modifies this`i
      ensures old(i) < |tokens| ==> tok == Ok(tokens[old(i)]) && i == old(i) + 1
      ensures old(i) >= |tokens| ==> tok == Err(TurtleError)
    {
      if i >= |tokens| {
        return Err(TurtleError);
      }
      i := i + 1;
      return Ok(tokens[i - 1]);
    }

    /** `next()` where `peek()` has just shown a token. */
    method Take() returns (tok: Token)
      requires i < |tokens|
      modifies this`i
      ensures tok == tokens[old(i)] && i == old(i) + 1
    {
      i := i + 1;
      return tokens[i - 1];
    }

    method ExpectToken(want: Token) returns (ok: Result<()>)
      modifies this`i
      ensures match Expect(tokens, old(Now()), want)
        case Ok(st) => ok.Ok? && Now() == st
        case Err(e) => ok == Err(e)
    {
      var tok :- Next();
      if tok != want {
        return Err(TurtleError);
      }
      return Ok(());
    }

    method FreshBnode() returns (node: Value)
      modifies this`minted
      ensures minted == old(minted) + 1 && node == Label(minted)
    {
      minted := minted + 1;
      return Label(minted);
    }

    /** Refuses the end of the input and every token that begins no term: numbers, directives, `^^`, other
        punctuation and other words. */
    method TermAt() returns (r: Result<Value>)
      requires i <= |tokens|
      modifies this
      ensures (old(i) < |tokens| ==> !BeginsTerm(tokens[old(i)])) ==> r == Err(TurtleError)
      ensures match ParseTerm(tokens, old(Now()))
        case Ok(p) => r == Ok(p.value) && Now() == p.st
        case Err(e) => r == Err(e)
      decreases |tokens| - i, 1
    {
      var tok :- Next();
      ghost var read := Now();
      assert ParseTerm(tokens, old(Now())) == ParseToken(tokens, read, tok);
      match tok {
        case Iri(text) =>
          return ResolveIri(text, base);
        case PName(text) =>
          return ResolvePName(text, prefixes);
        case Word(text) =>
          if text == "true" || text == "false" {
            return Ok(BoolValue(text == "true"));
          }
          return if text == "a" then Ok(TextValue(RDF_TYPE)) else Err(TurtleError);
        case Str(text) =>
          var _ :- SuffixAt(text);
          return Ok(TextValue(text));
        case LongStr(text) =>
          var _ :- SuffixAt(text);
          return Ok(TextValue(text));
        case Punct(OpenParen) =>
          r := CollectionAt();
        case Punct(OpenBracket) =>
          r := BlankAt();
        case _ =>
          return Err(TurtleError);
      }
    }

    method SuffixAt(ghost text: string) returns (r: Result<()>)
      requires i <= |tokens|
      modifies this
      ensures match ParseSuffix(tokens, old(Now()), text)
        case Ok(p) => r.Ok? && p.value == TextValue(text) && Now() == p.st
        case Err(e) => r == Err(e)
      decreases |tokens| - i, 2
    {
      if SeesTag(tokens, i) {
        var _ := Take();
      } else if Sees(tokens, i, Caret) {
        var _ := Take();
        var _ :- TermAt();
      }
      return Ok(());
    }

    method BlankAt() returns (r: Result<Value>)
      requires i <= |tokens|
      modifies this
      ensures match ParseBracket(tokens, old(Now()))
        case Ok(p) => r == Ok(p.value) && Now() == p.st
        case Err(e) => r == Err(e)
      decreases |tokens| - i, 4
    {
      var node := FreshBnode();
      if Sees(tokens, i, Punct(CloseBracket)) {
        var _ := Take();
        return Ok(node);
      }
      var _ :- PairsAt(node);
      var _ :- ExpectToken(Punct(CloseBracket));
      return Ok(node);
    }

    method CollectionAt() returns (r: Result<Value>)
      requires i <= |tokens|
      modifies this
      ensures match ParseCollection(tokens, old(Now()))
        case Ok(p) => r == Ok(p.value) && Now() == p.st
        case Err(e) => r == Err(e)
      decreases |tokens| - i, 2
    {
      ghost var start := Now();
      var items: seq<Value> := [];
      while true
        invariant start.i <= i
        invariant ParseItems(tokens, start, []) == ParseItems(tokens, Now(), items)
        decreases |tokens| - i
      {
        if i >= |tokens| {
          return Err(TurtleError);
        }
        if tokens[i] == Punct(CloseParen) {
          var _ := Take();
          break;
        }
        var item :- TermAt();
        items := items + [item];
      }
      assert ParseItems(tokens, start, []) == Ok(ParsedItems(items, Now()));
      if items == [] {
        return Ok(TextValue(RDF_NIL));
      }
      var head := AddCells(items);
      return Ok(head);
    }

    /** Mints one cell per item, then links them. */
    method AddCells(items: seq<Value>) returns (head: Value)
      requires items != []
      modifies this`triples, this`minted
      ensures Now() == MakeList(old(Now()), items).st && head == MakeList(old(Now()), items).value
    {
      ghost var first := minted + 1;
      var cells: seq<Value> := [];
      for k := 0 to |items|
        invariant |cells| == k && minted == old(minted) + k && triples == old(triples)
        invariant forall n :: 0 <= n < k ==> cells[n] == Label(first + n)
      {
        var cell := FreshBnode();
        cells := cells + [cell];
      }
      LinkCells(cells, items, first);
      return cells[0];
    }

    method LinkCells(cells: seq<Value>, items: seq<Value>, ghost first: nat)
      requires |cells| == |items| && forall n :: 0 <= n < |cells| ==> cells[n] == Label(first + n)
      modifies this`triples
      ensures triples == old(triples) + CellTriples(first, items)
    {
      assert items[0..] == items;
      for n := 0 to |items|
        invariant triples + CellTriples(first + n, items[n..]) == old(triples) + CellTriples(first, items)
      {
        var rest := if n + 1 < |cells| then cells[n + 1] else TextValue(RDF_NIL);
        triples := triples + [Triple(cells[n], TextValue(RDF_FIRST), items[n])];
        triples := triples + [Triple(cells[n], TextValue(RDF_REST), rest)];
      }
    }

    /** The inner loop: the objects of one predicate. */
    method ObjectsAt(subject: Value, verb: Value) returns (r: Result<()>)
      requires i <= |tokens|
      modifies this
      ensures match ParseObjects(tokens, old(Now()), subject, verb)
        case Ok(st) => r.Ok? && Now() == st
        case Err(e) => r == Err(e)
      decreases |tokens| - i, 2
    {
      ghost var start := Now();
      while true
        invariant start.i <= i <= |tokens|
        invariant ParseObjects(tokens, start, subject, verb) == ParseObjects(tokens, Now(), subject, verb)
        decreases |tokens| - i
      {
        var item :- TermAt();
        triples := triples + [Triple(subject, verb, item)];
        if !Sees(tokens, i, Punct(Comma)) {
          return Ok(());
        }
        var _ := Take();
      }
    }

    method PairsAt(subject: Value) returns (r: Result<()>)
      requires i <= |tokens|
      modifies this
      ensures match ParsePairs(tokens, old(Now()), subject)
        case Ok(st) => r.Ok? && Now() == st
        case Err(e) => r == Err(e)
      decreases |tokens| - i, 3
    {
      hide ParseTerm, ParseToken, ParseObjects, AfterObject, ResolveIri, ResolvePName;
      ghost var start := Now();
      while true
        invariant start.i <= i <= |tokens|
        invariant ParsePairs(tokens, start, subject) == ParsePairs(tokens, Now(), subject)
        decreases |tokens| - i
      {
        ghost var pairStart := Now();
        var verb :- TermAt();
        ghost var verbRead := Now();
        var _ :- ObjectsAt(subject, verb);
        if !Sees(tokens, i, Punct(Semicolon)) {
          return Ok(());
        }
        var _ := Take();
        if Closes(tokens, i) {
          return Ok(());
        }
      }
    }

    method StatementAt() returns (r: Result<()>)
      requires i <= |tokens|
      modifies this
      ensures match ParseStatement(tokens, old(Now()))
        case Ok(st) => r.Ok? && Now() == st
        case Err(e) => r == Err(e)
    {
      var subject :- TermAt();
      var _ :- PairsAt(subject);
      r := ExpectToken(Punct(Dot));
    }

    method DirectiveAt() returns (r: Result<()>)
      requires i < |tokens|
      modifies this
      ensures match ParseDirective(tokens, old(Now()))
        case Ok(st) => r.Ok? && Now() == st
        case Err(e) => r == Err(e)
    {
      var tok := Take();
      if TokenText(tok) == "@prefix" {
        var pname :- Next();
        var value :- TermAt();
        prefixes := prefixes[StripColons(TokenText(pname)) := value];
      } else if TokenText(tok) == "@base" {
        var value :- TermAt();
        base := value;
      } else {
        return Err(TurtleError);
      }
      r := ExpectToken(Punct(Dot));
    }

    method Parse() returns (r: Result<seq<Triple>>)
      modifies this
      ensures match ParseDocument(tokens, old(Now()))
        case Ok(st) => r == Ok(st.triples) && Now() == st
        case Err(e) => r == Err(e)
    {
      ghost var start := Now();
      while i < |tokens|
        invariant ParseDocument(tokens, start) == ParseDocument(tokens, Now())
        decreases |tokens| - i
      {
        if tokens[i].Directive? {
          var _ :- DirectiveAt();
        } else {
          var _ :- StatementAt();
        }
      }
      return Ok(triples);
    }
  }
}
