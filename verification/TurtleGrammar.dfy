/** The token lists the parser of `scripts/nsgen.py` accepts, all of them: a term may stand wherever `term()` is
    called, so verbs, datatypes, prefixes and the base are any terms, and a declared prefix is any token. */
module TurtleGrammar {
  import opened Text
  import opened TurtleSyntax
  import opened TurtleParser

  // ----- Trees

  datatype Tree =
    | Leaf(tok: Token)
    | Tagged(tok: Token, tag: string)
    | Typed(tok: Token, of: Tree)
    | EmptyBracket
    | Bracket(pairs: PairTree)
    | Parens(items: Trees)

  datatype Trees = NoTrees | ConsTree(head: Tree, tail: Trees)

  datatype ObjectTrees = LastTree(item: Tree) | MoreTrees(item: Tree, rest: ObjectTrees)

  datatype PairTree =
    | EndPair(verb: Tree, objects: ObjectTrees, trailing: bool)
    | NextPair(verb: Tree, objects: ObjectTrees, rest: PairTree)

  datatype Sentence = Prefix(name: Token, value: Tree) | Base(value: Tree) | Facts(subject: Tree, pairs: PairTree)

  predicate Quoted(tok: Token) {
    tok.Str? || tok.LongStr?
  }

  /** A term of one token. */
  predicate OneToken(tok: Token) {
    tok.Iri? || tok.PName? || Quoted(tok) || tok == Word("true") || tok == Word("false") || tok == Word("a")
  }

  predicate TreeOk(t: Tree)
    decreases t
  {
    match t
    case Leaf(tok) => OneToken(tok)
    case Tagged(tok, _) => Quoted(tok)
    case Typed(tok, d) => Quoted(tok) && TreeOk(d)
    case EmptyBracket => true
    case Bracket(ps) => PairTreeOk(ps)
    case Parens(ts) => TreesOk(ts)
  }

  predicate TreesOk(ts: Trees)
    decreases ts
  {
    ts.ConsTree? ==> TreeOk(ts.head) && TreesOk(ts.tail)
  }

  predicate ObjectTreesOk(os: ObjectTrees)
    decreases os
  {
    TreeOk(os.item) && (os.MoreTrees? ==> ObjectTreesOk(os.rest))
  }

  predicate PairTreeOk(ps: PairTree)
    decreases ps
  {
    TreeOk(ps.verb) && ObjectTreesOk(ps.objects) && (ps.NextPair? ==> PairTreeOk(ps.rest))
  }

  predicate SentenceOk(s: Sentence) {
    match s
    case Prefix(_, value) => TreeOk(value)
    case Base(value) => TreeOk(value)
    case Facts(subject, pairs) => TreeOk(subject) && PairTreeOk(pairs)
  }

  // ----- Their tokens

  function Yield(t: Tree): seq<Token>
    decreases t
  {
    match t
    case Leaf(tok) => [tok]
    case Tagged(tok, tag) => [tok, Directive(tag)]
    case Typed(tok, d) => [tok, Caret] + Yield(d)
    case EmptyBracket => [Punct(OpenBracket), Punct(CloseBracket)]
    case Bracket(ps) => [Punct(OpenBracket)] + (YieldPairs(ps) + [Punct(CloseBracket)])
    case Parens(ts) => [Punct(OpenParen)] + YieldItems(ts)
  }

  function YieldItems(ts: Trees): seq<Token>
    decreases ts
  {
    if ts.NoTrees? then [Punct(CloseParen)] else Yield(ts.head) + YieldItems(ts.tail)
  }

  function YieldObjects(os: ObjectTrees): seq<Token>
    decreases os
  {
    if os.LastTree? then Yield(os.item) else Yield(os.item) + ([Punct(Comma)] + YieldObjects(os.rest))
  }

  function YieldPairs(ps: PairTree): seq<Token>
    decreases ps
  {
    match ps
    case EndPair(verb, os, trailing) => Yield(verb) + (YieldObjects(os) + if trailing then [Punct(Semicolon)] else [])
    case NextPair(verb, os, rest) => Yield(verb) + (YieldObjects(os) + ([Punct(Semicolon)] + YieldPairs(rest)))
  }

  function YieldSentence(s: Sentence): seq<Token> {
    match s
    case Prefix(name, value) => [Directive("@prefix"), name] + (Yield(value) + [Punct(Dot)])
    case Base(value) => [Directive("@base")] + (Yield(value) + [Punct(Dot)])
    case Facts(subject, pairs) => Yield(subject) + (YieldPairs(pairs) + [Punct(Dot)])
  }

  function YieldAll(d: seq<Sentence>): seq<Token> {
    if d == [] then [] else YieldSentence(d[0]) + YieldAll(d[1..])
  }

  // ----- Spans

  predicate Spans(toks: seq<Token>, i: nat, j: nat, ys: seq<Token>) {
    i <= j <= |toks| && toks[i..j] == ys
  }

  lemma One(toks: seq<Token>, i: nat)
    requires i < |toks|
    ensures Spans(toks, i, i + 1, [toks[i]])
  {
  }

  lemma Join(toks: seq<Token>, i: nat, j: nat, k: nat, a: seq<Token>, b: seq<Token>)
    requires Spans(toks, i, j, a) && Spans(toks, j, k, b)
    ensures Spans(toks, i, k, a + b)
  {
  }

  lemma Split(toks: seq<Token>, i: nat, k: nat, a: seq<Token>, b: seq<Token>) returns (j: nat)
    requires Spans(toks, i, k, a + b)
    ensures j == i + |a| <= k && Spans(toks, i, j, a) && Spans(toks, j, k, b)
  {
    j := i + |a|;
    assert toks[i..k][..|a|] == a && toks[i..k][|a|..] == b;
  }

  // ----- Whatever is accepted is a tree's tokens

  lemma {:induction false} TermYields(toks: seq<Token>, st: State) returns (t: Tree)
    requires ParseTerm(toks, st).Ok?
    ensures TreeOk(t) && Spans(toks, st.i, ParseTerm(toks, st).value.st.i, Yield(t))
    decreases |toks| - st.i, 1
  {
    hide ResolveIri, ResolvePName, ParseSuffix, ParseCollection, ParseBracket;
    var tok, rest := toks[st.i], st.(i := st.i + 1);
    One(toks, st.i);
    match tok
    case Str(text) => t := SuffixYields(toks, rest, text);
    case LongStr(text) => t := SuffixYields(toks, rest, text);
    case Punct(OpenParen) => t := CollectionYields(toks, rest);
    case Punct(OpenBracket) => t := BracketYields(toks, rest);
    case _ => t := Leaf(tok);
  }

  /** A string literal whose first token has just been read. */
  lemma {:induction false} SuffixYields(toks: seq<Token>, st: State, text: string) returns (t: Tree)
    requires 0 < st.i <= |toks| && Quoted(toks[st.i - 1]) && ParseSuffix(toks, st, text).Ok?
    ensures TreeOk(t) && Spans(toks, st.i - 1, ParseSuffix(toks, st, text).value.st.i, Yield(t))
    decreases |toks| - st.i, 2
  {
    hide ParseTerm;
    var tok := toks[st.i - 1];
    One(toks, st.i - 1);
    if SeesTag(toks, st.i) {
      One(toks, st.i);
      t := Tagged(tok, toks[st.i].text);
    } else if Sees(toks, st.i, Caret) {
      var d := TermYields(toks, st.(i := st.i + 1));
      t := Typed(tok, d);
      Join(toks, st.i - 1, st.i + 1, ParseSuffix(toks, st, text).value.st.i, [tok, Caret], Yield(d));
    } else {
      t := Leaf(tok);
    }
  }

  lemma {:induction false} CollectionYields(toks: seq<Token>, st: State) returns (t: Tree)
    requires 0 < st.i <= |toks| && toks[st.i - 1] == Punct(OpenParen) && ParseCollection(toks, st).Ok?
    ensures TreeOk(t) && Spans(toks, st.i - 1, ParseCollection(toks, st).value.st.i, Yield(t))
    decreases |toks| - st.i, 3
  {
    hide ParseItems;
    var items := ItemsYield(toks, st, []);
    t := Parens(items);
    One(toks, st.i - 1);
    Join(toks, st.i - 1, st.i, ParseItems(toks, st, []).value.st.i, [Punct(OpenParen)], YieldItems(items));
  }

  lemma {:induction false} BracketYields(toks: seq<Token>, st: State) returns (t: Tree)
    requires 0 < st.i <= |toks| && toks[st.i - 1] == Punct(OpenBracket) && ParseBracket(toks, st).Ok?
    ensures TreeOk(t) && Spans(toks, st.i - 1, ParseBracket(toks, st).value.st.i, Yield(t))
    decreases |toks| - st.i, 4
  {
    hide ParsePairs;
    var node, inner := Label(st.minted + 1), st.(minted := st.minted + 1);
    One(toks, st.i - 1);
    if Sees(toks, st.i, Punct(CloseBracket)) {
      t := EmptyBracket;
    } else {
      var ps := PairsYield(toks, inner, node);
      var end := ParsePairs(toks, inner, node).value.i;
      t := Bracket(ps);
      One(toks, end);
      Join(toks, st.i, end, end + 1, YieldPairs(ps), [Punct(CloseBracket)]);
      Join(toks, st.i - 1, st.i, end + 1, [Punct(OpenBracket)], YieldPairs(ps) + [Punct(CloseBracket)]);
    }
  }

  lemma {:induction false} ItemsYield(toks: seq<Token>, st: State, values: seq<Value>) returns (ts: Trees)
    requires ParseItems(toks, st, values).Ok?
    ensures TreesOk(ts) && Spans(toks, st.i, ParseItems(toks, st, values).value.st.i, YieldItems(ts))
    decreases |toks| - st.i, 2
  {
    hide ParseTerm;
    if Sees(toks, st.i, Punct(CloseParen)) {
      One(toks, st.i);
      ts := NoTrees;
    } else {
      var item := ParseTerm(toks, st).value;
      var head := TermYields(toks, st);
      var tail := ItemsYield(toks, item.st, values + [item.value]);
      ts := ConsTree(head, tail);
      Join(toks, st.i, item.st.i, ParseItems(toks, st, values).value.st.i, Yield(head), YieldItems(tail));
    }
  }

  lemma {:induction false} ObjectsYield(toks: seq<Token>, st: State, s: Value, p: Value) returns (os: ObjectTrees)
    requires ParseObjects(toks, st, s, p).Ok?
    ensures ObjectTreesOk(os) && Spans(toks, st.i, ParseObjects(toks, st, s, p).value.i, YieldObjects(os))
    decreases |toks| - st.i, 2
  {
    hide ParseTerm;
    var o := ParseTerm(toks, st).value;
    var item := TermYields(toks, st);
    var next := o.st.(triples := o.st.triples + [Triple(s, p, o.value)]);
    if Sees(toks, next.i, Punct(Comma)) {
      var rest := ObjectsYield(toks, next.(i := next.i + 1), s, p);
      os := MoreTrees(item, rest);
      var end := ParseObjects(toks, st, s, p).value.i;
      One(toks, next.i);
      Join(toks, next.i, next.i + 1, end, [Punct(Comma)], YieldObjects(rest));
      Join(toks, st.i, next.i, end, Yield(item), [Punct(Comma)] + YieldObjects(rest));
    } else {
      os := LastTree(item);
    }
  }

  lemma {:induction false} PairsYield(toks: seq<Token>, st: State, s: Value) returns (ps: PairTree)
    requires ParsePairs(toks, st, s).Ok?
    ensures PairTreeOk(ps) && Spans(toks, st.i, ParsePairs(toks, st, s).value.i, YieldPairs(ps))
    decreases |toks| - st.i, 3
  {
    hide ParseTerm, ParseObjects;
    var p := ParseTerm(toks, st).value;
    var verb := TermYields(toks, st);
    var next := ParseObjects(toks, p.st, s, p.value).value;
    var os := ObjectsYield(toks, p.st, s, p.value);
    var end := ParsePairs(toks, st, s).value.i;
    var tail: seq<Token> := [];
    if Sees(toks, next.i, Punct(Semicolon)) && !Closes(toks, next.i + 1) {
      One(toks, next.i);
      var rest := PairsYield(toks, next.(i := next.i + 1), s);
      ps, tail := NextPair(verb, os, rest), [Punct(Semicolon)] + YieldPairs(rest);
      Join(toks, next.i, next.i + 1, end, [Punct(Semicolon)], YieldPairs(rest));
    } else {
      var trailing := Sees(toks, next.i, Punct(Semicolon));
      ps, tail := EndPair(verb, os, trailing), if trailing then [Punct(Semicolon)] else [];
    }
    Join(toks, p.st.i, next.i, end, YieldObjects(os), tail);
    Join(toks, st.i, p.st.i, end, Yield(verb), YieldObjects(os) + tail);
  }

  lemma SentenceYields(toks: seq<Token>, st: State) returns (s: Sentence)
    requires st.i < |toks| && ParseNext(toks, st).Ok?
    ensures SentenceOk(s) && Spans(toks, st.i, ParseNext(toks, st).value.i, YieldSentence(s))
  {
    if !toks[st.i].Directive? {
      s := FactsYield(toks, st);
    } else if TokenText(toks[st.i]) == "@prefix" {
      s := PrefixYields(toks, st);
    } else {
      s := BaseYields(toks, st);
    }
  }

  lemma PrefixYields(toks: seq<Token>, st: State) returns (s: Sentence)
    requires st.i < |toks| && ParseNext(toks, st).Ok? && toks[st.i] == Directive("@prefix")
    ensures SentenceOk(s) && Spans(toks, st.i, ParseNext(toks, st).value.i, YieldSentence(s))
  {
    hide ParseTerm, StripColons, ParseStatement;
    var end, from := ParseNext(toks, st).value.i, st.(i := st.i + 2);
    One(toks, end - 1);
    var value := TermYields(toks, from);
    s := Prefix(toks[st.i + 1], value);
    Join(toks, from.i, end - 1, end, Yield(value), [Punct(Dot)]);
    Join(toks, st.i, from.i, end, [Directive("@prefix"), toks[st.i + 1]], Yield(value) + [Punct(Dot)]);
  }

  lemma BaseYields(toks: seq<Token>, st: State) returns (s: Sentence)
    requires st.i < |toks| && ParseNext(toks, st).Ok? && toks[st.i].Directive? && toks[st.i] != Directive("@prefix")
    ensures SentenceOk(s) && Spans(toks, st.i, ParseNext(toks, st).value.i, YieldSentence(s))
  {
    hide ParseTerm, StripColons, ParseStatement;
    var end, from := ParseNext(toks, st).value.i, st.(i := st.i + 1);
    One(toks, st.i);
    One(toks, end - 1);
    var value := TermYields(toks, from);
    s := Base(value);
    Join(toks, from.i, end - 1, end, Yield(value), [Punct(Dot)]);
    Join(toks, st.i, from.i, end, [Directive("@base")], Yield(value) + [Punct(Dot)]);
  }

  lemma FactsYield(toks: seq<Token>, st: State) returns (s: Sentence)
    requires st.i < |toks| && ParseNext(toks, st).Ok? && !toks[st.i].Directive?
    ensures SentenceOk(s) && Spans(toks, st.i, ParseNext(toks, st).value.i, YieldSentence(s))
  {
    hide ParseTerm, ParsePairs, ParseDirective;
    var end, p := ParseNext(toks, st).value.i, ParseTerm(toks, st).value;
    One(toks, end - 1);
    var subject := TermYields(toks, st);
    var pairs := PairsYield(toks, p.st, p.value);
    s := Facts(subject, pairs);
    Join(toks, p.st.i, end - 1, end, YieldPairs(pairs), [Punct(Dot)]);
    Join(toks, st.i, p.st.i, end, Yield(subject), YieldPairs(pairs) + [Punct(Dot)]);
  }

  predicate DocumentOk(d: seq<Sentence>) {
    forall s :: s in d ==> SentenceOk(s)
  }

  lemma {:induction false} DocumentYields(toks: seq<Token>, st: State) returns (d: seq<Sentence>)
    requires st.i <= |toks| && ParseDocument(toks, st).Ok?
    ensures DocumentOk(d) && toks[st.i..] == YieldAll(d)
    decreases |toks| - st.i
  {
    hide ParseNext, SentenceOk;
    d := [];
    if st.i < |toks| {
      var next := ParseNext(toks, st).value;
      var s := SentenceYields(toks, st);
      var rest := DocumentYields(toks, next);
      d := [s] + rest;
      assert toks[st.i..] == toks[st.i..next.i] + toks[next.i..];
    }
  }
}
