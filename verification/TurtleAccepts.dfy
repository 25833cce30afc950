/** Exactly the token lists the parser of `scripts/nsgen.py` accepts: those of a document in which every name
    can be resolved where it stands. Nothing here refers to the parser but the theorems. */
module TurtleAccepts {
  import opened Text
  import opened TurtleSyntax
  import opened TurtleParser
  import opened TurtleGrammar

  // ----- Names that resolve

  /** The prefixes that stand for text, and whether the base does: Python cannot add text to a boolean. */
  datatype Known = Known(prefixes: set<string>, base: bool)

  predicate IsFlag(t: Tree) {
    t == Leaf(Word("true")) || t == Leaf(Word("false"))
  }

  predicate KnownToken(k: Known, tok: Token) {
    && (tok.Iri? ==> ':' in Inner(tok.text) || k.base)
    && (tok.PName? ==> BeforeColon(tok.text) in k.prefixes)
  }

  predicate AllKnown(k: Known, ys: seq<Token>) {
    forall tok :: tok in ys ==> KnownToken(k, tok)
  }

  /** A prefix is declared by whatever token stands there, trailing colons aside. */
  predicate KnownSentence(k: Known, s: Sentence) {
    match s
    case Prefix(_, value) => AllKnown(k, Yield(value))
    case Base(value) => AllKnown(k, Yield(value))
    case Facts(subject, pairs) => AllKnown(k, Yield(subject) + YieldPairs(pairs))
  }

  function AfterSentence(k: Known, s: Sentence): Known {
    match s
    case Prefix(name, value) =>
      var p := StripColons(TokenText(name));
      k.(prefixes := if IsFlag(value) then k.prefixes - {p} else k.prefixes + {p})
    case Base(value) => k.(base := !IsFlag(value))
    case Facts(_, _) => k
  }

  predicate Scoped(k: Known, d: seq<Sentence>)
    decreases |d|
  {
    d == [] || (KnownSentence(k, d[0]) && Scoped(AfterSentence(k, d[0]), d[1..]))
  }

  ghost predicate Tells(k: Known, scope: Scope) {
    && (k.base <==> scope.base.TextValue?)
    && forall p :: p in k.prefixes <==> p in scope.prefixes && scope.prefixes[p].TextValue?
  }

  lemma KnownJoin(k: Known, a: seq<Token>, b: seq<Token>)
    ensures AllKnown(k, a + b) <==> AllKnown(k, a) && AllKnown(k, b)
  {
    hide KnownToken;
    if AllKnown(k, a + b) {
      forall tok | tok in a
        ensures KnownToken(k, tok)
      {
        assert tok in a + b;
      }
      forall tok | tok in b
        ensures KnownToken(k, tok)
      {
        assert tok in a + b;
      }
    }
  }

  lemma KnownMark(k: Known, tok: Token)
    requires !tok.Iri? && !tok.PName?
    ensures AllKnown(k, [tok])
  {
  }

  // ----- What may follow

  /** No language tag and no datatype follows. */
  predicate Plain(toks: seq<Token>, j: nat) {
    j < |toks| ==> !toks[j].Directive? && toks[j] != Caret
  }

  lemma TreeBegins(toks: seq<Token>, i: nat, j: nat, t: Tree)
    requires TreeOk(t) && Spans(toks, i, j, Yield(t))
    ensures i < j && BeginsTerm(toks[i]) && Plain(toks, i)
  {
    assert toks[i..j][0] == toks[i];
  }

  lemma OneSpan(toks: seq<Token>, i: nat, j: nat, tok: Token)
    requires Spans(toks, i, j, [tok])
    ensures j == i + 1 && toks[i] == tok
  {
    assert toks[i..j][0] == toks[i];
  }

  lemma TwoSpan(toks: seq<Token>, i: nat, j: nat, a: Token, b: Token)
    requires Spans(toks, i, j, [a, b])
    ensures j == i + 2 && toks[i] == a && toks[i + 1] == b
  {
    assert toks[i..j][0] == toks[i] && toks[i..j][1] == toks[i + 1];
  }

  // ----- A tree's tokens are accepted exactly when its names resolve

  /** The parser got to `j` without touching the scope, or the names do not resolve. */
  ghost predicate Accepted(k: Known, ys: seq<Token>, st: State, r: Result<State>, j: nat) {
    && (r.Ok? <==> AllKnown(k, ys))
    && (r.Ok? ==> r.value.i == j && r.value.scope == st.scope)
  }

  function StateOf(r: Result<Parsed>): Result<State> {
    if r.Ok? then Ok(r.value.st) else Err(r.error)
  }

  lemma {:induction false} TermAccepts(k: Known, toks: seq<Token>, st: State, t: Tree, j: nat)
    requires TreeOk(t) && Spans(toks, st.i, j, Yield(t)) && Plain(toks, j) && Tells(k, st.scope)
    ensures Accepted(k, Yield(t), st, StateOf(ParseTerm(toks, st)), j)
    ensures ParseTerm(toks, st).Ok? ==> (ParseTerm(toks, st).value.value.BoolValue? <==> IsFlag(t))
    decreases t, 0
  {
    TreeBegins(toks, st.i, j, t);
    match t
    case Leaf(tok) => LeafAccepts(k, toks, st, tok, j);
    case Tagged(tok, tag) => TaggedAccepts(k, toks, st, tok, tag, j);
    case Typed(tok, d) => TypedAccepts(k, toks, st, tok, d, j);
    case EmptyBracket => EmptyAccepts(k, toks, st, j);
    case Bracket(ps) => BracketAccepts(k, toks, st, ps, j);
    case Parens(ts) => ParensAccepts(k, toks, st, ts, j);
  }

  lemma Opens(toks: seq<Token>, st: State)
    requires st.i < |toks|
    ensures var tok, next := toks[st.i], st.(i := st.i + 1);
      && (Quoted(tok) ==> ParseTerm(toks, st) == ParseSuffix(toks, next, tok.text))
      && (tok == Punct(OpenParen) ==> ParseTerm(toks, st) == ParseCollection(toks, next))
      && (tok == Punct(OpenBracket) ==> ParseTerm(toks, st) == ParseBracket(toks, next))
  {
    hide ParseSuffix, ParseCollection, ParseBracket;
    assert ParseTerm(toks, st) == ParseToken(toks, st.(i := st.i + 1), toks[st.i]);
  }

  lemma EmptyAccepts(k: Known, toks: seq<Token>, st: State, j: nat)
    requires Spans(toks, st.i, j, [Punct(OpenBracket), Punct(CloseBracket)])
    ensures Accepted(k, [Punct(OpenBracket), Punct(CloseBracket)], st, StateOf(ParseTerm(toks, st)), j)
    ensures ParseTerm(toks, st).Ok? ==> ParseTerm(toks, st).value.value.TextValue?
  {
    TwoSpan(toks, st.i, j, Punct(OpenBracket), Punct(CloseBracket));
    Opens(toks, st);
    hide ParsePairs, ParseTerm;
  }

  lemma LeafAccepts(k: Known, toks: seq<Token>, st: State, tok: Token, j: nat)
    requires OneToken(tok) && Spans(toks, st.i, j, [tok]) && Plain(toks, j) && Tells(k, st.scope)
    ensures Accepted(k, [tok], st, StateOf(ParseTerm(toks, st)), j)
    ensures ParseTerm(toks, st).Ok? ==> (ParseTerm(toks, st).value.value.BoolValue? <==> IsFlag(Leaf(tok)))
  {
    OneSpan(toks, st.i, j, tok);
    hide ParseCollection, ParseBracket;
    assert ParseTerm(toks, st) == ParseToken(toks, st.(i := j), tok);
    assert tok in [tok];
  }

  lemma TaggedAccepts(k: Known, toks: seq<Token>, st: State, tok: Token, tag: string, j: nat)
    requires Quoted(tok) && Spans(toks, st.i, j, [tok, Directive(tag)]) && Tells(k, st.scope)
    ensures Accepted(k, [tok, Directive(tag)], st, StateOf(ParseTerm(toks, st)), j)
    ensures ParseTerm(toks, st).Ok? ==> ParseTerm(toks, st).value.value.TextValue?
  {
    TwoSpan(toks, st.i, j, tok, Directive(tag));
    hide ParseCollection, ParseBracket;
    assert ParseTerm(toks, st) == ParseToken(toks, st.(i := st.i + 1), tok);
  }

  lemma {:induction false} TypedAccepts(k: Known, toks: seq<Token>, st: State, tok: Token, d: Tree, j: nat)
    requires Quoted(tok) && TreeOk(d) && Spans(toks, st.i, j, [tok, Caret] + Yield(d)) && Plain(toks, j) && Tells(k, st.scope)
    ensures Accepted(k, [tok, Caret] + Yield(d), st, StateOf(ParseTerm(toks, st)), j)
    ensures ParseTerm(toks, st).Ok? ==> ParseTerm(toks, st).value.value.TextValue?
    decreases d, 1
  {
    var m := Split(toks, st.i, j, [tok, Caret], Yield(d));
    TwoSpan(toks, st.i, m, tok, Caret);
    TermAccepts(k, toks, st.(i := m), d, j);
    KnownJoin(k, [tok, Caret], Yield(d));
    KnownMark(k, tok);
    KnownMark(k, Caret);
    KnownJoin(k, [tok], [Caret]);
    assert [tok] + [Caret] == [tok, Caret];
    Opens(toks, st);
    hide ParseTerm, AllKnown, Tells, Yield;
  }

  lemma {:induction false} BracketAccepts(k: Known, toks: seq<Token>, st: State, ps: PairTree, j: nat)
    requires PairTreeOk(ps) && Spans(toks, st.i, j, Yield(Bracket(ps))) && Tells(k, st.scope)
    ensures Accepted(k, Yield(Bracket(ps)), st, StateOf(ParseTerm(toks, st)), j)
    ensures ParseTerm(toks, st).Ok? ==> ParseTerm(toks, st).value.value.TextValue?
    decreases ps, 2
  {
    hide ParseTerm, ParsePairs, ParseBracket, AllKnown, Tells, YieldPairs, PairTreeOk;
    var m := Split(toks, st.i, j, [Punct(OpenBracket)], YieldPairs(ps) + [Punct(CloseBracket)]);
    OneSpan(toks, st.i, m, Punct(OpenBracket));
    Opens(toks, st);
    var n := Split(toks, m, j, YieldPairs(ps), [Punct(CloseBracket)]);
    OneSpan(toks, n, j, Punct(CloseBracket));
    PairsAccept(k, toks, State(m, st.scope, st.triples, st.minted + 1), Label(st.minted + 1), ps, n);
    PairsBegin(toks, m, n, ps);
    BracketParses(toks, st.(i := m));
    KnownMark(k, Punct(OpenBracket));
    KnownMark(k, Punct(CloseBracket));
    KnownJoin(k, [Punct(OpenBracket)], YieldPairs(ps) + [Punct(CloseBracket)]);
    KnownJoin(k, YieldPairs(ps), [Punct(CloseBracket)]);
  }

  lemma BracketParses(toks: seq<Token>, st: State)
    requires !Sees(toks, st.i, Punct(CloseBracket))
    ensures var r := ParsePairs(toks, st.(minted := st.minted + 1), Label(st.minted + 1));
      ParseBracket(toks, st) ==
        if r.Err? then Err(r.error)
        else if Sees(toks, r.value.i, Punct(CloseBracket)) then Ok(Parsed(Label(st.minted + 1), r.value.(i := r.value.i + 1)))
        else Err(TurtleError)
  {
    hide ParsePairs;
  }

  lemma PairsBegin(toks: seq<Token>, i: nat, j: nat, ps: PairTree)
    requires PairTreeOk(ps) && Spans(toks, i, j, YieldPairs(ps))
    ensures i < j && BeginsTerm(toks[i]) && Plain(toks, i)
  {
    assert YieldPairs(ps) == Yield(ps.verb) + YieldPairs(ps)[|Yield(ps.verb)|..];
    var m := Split(toks, i, j, Yield(ps.verb), YieldPairs(ps)[|Yield(ps.verb)|..]);
    TreeBegins(toks, i, m, ps.verb);
  }

  lemma {:induction false} ParensAccepts(k: Known, toks: seq<Token>, st: State, ts: Trees, j: nat)
    requires TreesOk(ts) && Spans(toks, st.i, j, Yield(Parens(ts))) && Tells(k, st.scope)
    ensures Accepted(k, Yield(Parens(ts)), st, StateOf(ParseTerm(toks, st)), j)
    ensures ParseTerm(toks, st).Ok? ==> ParseTerm(toks, st).value.value.TextValue?
    decreases ts, 1
  {
    var m := Split(toks, st.i, j, [Punct(OpenParen)], YieldItems(ts));
    OneSpan(toks, st.i, m, Punct(OpenParen));
    ItemsAccept(k, toks, st.(i := m), [], ts, j);
    KnownMark(k, Punct(OpenParen));
    KnownJoin(k, [Punct(OpenParen)], YieldItems(ts));
    Opens(toks, st);
    hide ParseTerm, ParseItems, AllKnown, Tells, YieldItems;
  }

  lemma {:induction false} ItemsAccept(k: Known, toks: seq<Token>, st: State, values: seq<Value>, ts: Trees, j: nat)
    requires TreesOk(ts) && Spans(toks, st.i, j, YieldItems(ts)) && Tells(k, st.scope)
    ensures var r := ParseItems(toks, st, values);
      Accepted(k, YieldItems(ts), st, if r.Ok? then Ok(r.value.st) else Err(r.error), j)
    decreases ts, 0
  {
    if ts.NoTrees? {
      OneSpan(toks, st.i, j, Punct(CloseParen));
      KnownMark(k, Punct(CloseParen));
    } else {
      var m := Split(toks, st.i, j, Yield(ts.head), YieldItems(ts.tail));
      TreeBegins(toks, st.i, m, ts.head);
      ItemsBegin(toks, m, j, ts.tail);
      TermAccepts(k, toks, st, ts.head, m);
      KnownJoin(k, Yield(ts.head), YieldItems(ts.tail));
      hide ParseTerm, AllKnown, Tells, Yield;
      var item := ParseTerm(toks, st);
      if item.Ok? { ItemsAccept(k, toks, item.value.st, values + [item.value.value], ts.tail, j); }
    }
  }

  lemma ItemsBegin(toks: seq<Token>, i: nat, j: nat, ts: Trees)
    requires TreesOk(ts) && Spans(toks, i, j, YieldItems(ts))
    ensures Plain(toks, i)
  {
    if ts.ConsTree? {
      var m := Split(toks, i, j, Yield(ts.head), YieldItems(ts.tail));
      TreeBegins(toks, i, m, ts.head);
    } else {
      OneSpan(toks, i, j, Punct(CloseParen));
    }
  }

  lemma {:induction false} ObjectsAccept(k: Known, toks: seq<Token>, st: State, s: Value, p: Value, os: ObjectTrees, j: nat)
    requires ObjectTreesOk(os) && Spans(toks, st.i, j, YieldObjects(os)) && Tells(k, st.scope)
    requires Plain(toks, j) && !Sees(toks, j, Punct(Comma))
    ensures Accepted(k, YieldObjects(os), st, ParseObjects(toks, st, s, p), j)
    decreases os, 0
  {
    hide ParseTerm, AllKnown, Tells, Yield;
    var o := ParseTerm(toks, st);
    if os.LastTree? {
      TermAccepts(k, toks, st, os.item, j);
    } else {
      var m := Split(toks, st.i, j, Yield(os.item), [Punct(Comma)] + YieldObjects(os.rest));
      var n := Split(toks, m, j, [Punct(Comma)], YieldObjects(os.rest));
      OneSpan(toks, m, n, Punct(Comma));
      TermAccepts(k, toks, st, os.item, m);
      KnownMark(k, Punct(Comma));
      KnownJoin(k, Yield(os.item), [Punct(Comma)] + YieldObjects(os.rest));
      KnownJoin(k, [Punct(Comma)], YieldObjects(os.rest));
      if o.Ok? {
        ObjectsAccept(k, toks, State(n, o.value.st.scope, o.value.st.triples + [Triple(s, p, o.value.value)], o.value.st.minted), s, p, os.rest, j);
      }
    }
  }

  lemma ObjectsBegin(toks: seq<Token>, i: nat, j: nat, os: ObjectTrees)
    requires ObjectTreesOk(os) && Spans(toks, i, j, YieldObjects(os))
    ensures i < j && BeginsTerm(toks[i]) && Plain(toks, i)
  {
    if os.LastTree? {
      TreeBegins(toks, i, j, os.item);
    } else {
      var m := Split(toks, i, j, Yield(os.item), [Punct(Comma)] + YieldObjects(os.rest));
      TreeBegins(toks, i, m, os.item);
    }
  }

  /** Always before a `.` or a `]`. */
  lemma {:induction false} PairsAccept(k: Known, toks: seq<Token>, st: State, s: Value, ps: PairTree, j: nat)
    requires PairTreeOk(ps) && Spans(toks, st.i, j, YieldPairs(ps)) && Tells(k, st.scope) && Closes(toks, j)
    ensures Accepted(k, YieldPairs(ps), st, ParsePairs(toks, st, s), j)
    decreases ps, 1
  {
    hide ParseTerm, ParseObjects, AllKnown, Tells, Yield, YieldObjects;
    var tail := if ps.EndPair? then (if ps.trailing then [Punct(Semicolon)] else []) else [Punct(Semicolon)] + YieldPairs(ps.rest);
    var m := Split(toks, st.i, j, Yield(ps.verb), YieldObjects(ps.objects) + tail);
    var n := Split(toks, m, j, YieldObjects(ps.objects), tail);
    ObjectsBegin(toks, m, n, ps.objects);
    TermAccepts(k, toks, st, ps.verb, m);
    KnownJoin(k, Yield(ps.verb), YieldObjects(ps.objects) + tail);
    KnownJoin(k, YieldObjects(ps.objects), tail);
    TailFollows(toks, n, j, ps, tail);
    var p := ParseTerm(toks, st);
    if p.Ok? {
      ObjectsAccept(k, toks, p.value.st, s, p.value.value, ps.objects, n);
      var os := ParseObjects(toks, p.value.st, s, p.value.value);
      if os.Ok? { TailAccepts(k, toks, os.value, s, ps, tail, j); }
    }
  }

  lemma TailFollows(toks: seq<Token>, n: nat, j: nat, ps: PairTree, tail: seq<Token>)
    requires Spans(toks, n, j, tail) && Closes(toks, j)
    requires tail == if ps.EndPair? then (if ps.trailing then [Punct(Semicolon)] else []) else [Punct(Semicolon)] + YieldPairs(ps.rest)
    ensures Plain(toks, n) && !Sees(toks, n, Punct(Comma))
    ensures Sees(toks, n, Punct(Semicolon)) <==> tail != []
  {
    if tail != [] { assert toks[n..j][0] == toks[n]; }
  }

  lemma {:induction false} TailAccepts(k: Known, toks: seq<Token>, st: State, s: Value, ps: PairTree, tail: seq<Token>, j: nat)
    requires PairTreeOk(ps) && Spans(toks, st.i, j, tail) && Tells(k, st.scope) && Closes(toks, j)
    requires tail == if ps.EndPair? then (if ps.trailing then [Punct(Semicolon)] else []) else [Punct(Semicolon)] + YieldPairs(ps.rest)
    ensures Accepted(k, tail, st, AfterObjects(toks, st, s), j)
    decreases ps, 0
  {
    TailFollows(toks, st.i, j, ps, tail);
    KnownMark(k, Punct(Semicolon));
    hide ParsePairs, Tells, YieldPairs;
    if ps.EndPair? {
      assert AllKnown(k, tail);
      hide AllKnown;
    } else {
      hide AllKnown;
      var m := Split(toks, st.i, j, [Punct(Semicolon)], YieldPairs(ps.rest));
      OneSpan(toks, st.i, m, Punct(Semicolon));
      PairsBegin(toks, m, j, ps.rest);
      KnownJoin(k, [Punct(Semicolon)], YieldPairs(ps.rest));
      PairsAccept(k, toks, st.(i := m), s, ps.rest, j);
    }
  }

  // ----- Sentences and documents

  /** Accepted, and the scope afterwards is told too. */
  ghost predicate AcceptedSentence(k: Known, s: Sentence, r: Result<State>, j: nat) {
    && (r.Ok? <==> KnownSentence(k, s))
    && (r.Ok? ==> r.value.i == j && Tells(AfterSentence(k, s), r.value.scope))
  }

  lemma SentenceAccepts(k: Known, toks: seq<Token>, st: State, s: Sentence, j: nat)
    requires SentenceOk(s) && Spans(toks, st.i, j, YieldSentence(s)) && Tells(k, st.scope)
    ensures st.i < j && AcceptedSentence(k, s, ParseNext(toks, st), j)
  {
    match s
    case Prefix(name, value) => PrefixAccepts(k, toks, st, name, value, j);
    case Base(value) => BaseAccepts(k, toks, st, value, j);
    case Facts(subject, pairs) => FactsAccept(k, toks, st, subject, pairs, j);
  }

  lemma PrefixAccepts(k: Known, toks: seq<Token>, st: State, name: Token, value: Tree, j: nat)
    requires TreeOk(value) && Spans(toks, st.i, j, YieldSentence(Prefix(name, value))) && Tells(k, st.scope)
    ensures st.i < j && AcceptedSentence(k, Prefix(name, value), ParseNext(toks, st), j)
  {
    hide ParseTerm, AllKnown, Yield, StripColons;
    var m := Split(toks, st.i, j, [Directive("@prefix"), name], Yield(value) + [Punct(Dot)]);
    TwoSpan(toks, st.i, m, Directive("@prefix"), name);
    var n := Split(toks, m, j, Yield(value), [Punct(Dot)]);
    OneSpan(toks, n, j, Punct(Dot));
    TermAccepts(k, toks, st.(i := m), value, n);
  }

  lemma BaseAccepts(k: Known, toks: seq<Token>, st: State, value: Tree, j: nat)
    requires TreeOk(value) && Spans(toks, st.i, j, YieldSentence(Base(value))) && Tells(k, st.scope)
    ensures st.i < j && AcceptedSentence(k, Base(value), ParseNext(toks, st), j)
  {
    hide ParseTerm, AllKnown, Yield, StripColons;
    var m := Split(toks, st.i, j, [Directive("@base")], Yield(value) + [Punct(Dot)]);
    OneSpan(toks, st.i, m, Directive("@base"));
    var n := Split(toks, m, j, Yield(value), [Punct(Dot)]);
    OneSpan(toks, n, j, Punct(Dot));
    TermAccepts(k, toks, st.(i := m), value, n);
  }

  lemma FactsAccept(k: Known, toks: seq<Token>, st: State, subject: Tree, pairs: PairTree, j: nat)
    requires TreeOk(subject) && PairTreeOk(pairs) && Spans(toks, st.i, j, YieldSentence(Facts(subject, pairs))) && Tells(k, st.scope)
    ensures st.i < j && AcceptedSentence(k, Facts(subject, pairs), ParseNext(toks, st), j)
  {
    hide ParseTerm, ParsePairs, AllKnown, Yield, YieldPairs, Tells;
    var m := Split(toks, st.i, j, Yield(subject), YieldPairs(pairs) + [Punct(Dot)]);
    var n := Split(toks, m, j, YieldPairs(pairs), [Punct(Dot)]);
    OneSpan(toks, n, j, Punct(Dot));
    TreeBegins(toks, st.i, m, subject);
    PairsBegin(toks, m, n, pairs);
    TermAccepts(k, toks, st, subject, m);
    KnownJoin(k, Yield(subject), YieldPairs(pairs));
    var s := ParseTerm(toks, st);
    if s.Ok? { PairsAccept(k, toks, s.value.st, s.value.value, pairs, n); }
  }

  lemma {:induction false} DocumentAccepts(k: Known, toks: seq<Token>, st: State, d: seq<Sentence>)
    requires DocumentOk(d) && st.i <= |toks| && toks[st.i..] == YieldAll(d) && Tells(k, st.scope)
    ensures ParseDocument(toks, st).Ok? <==> Scoped(k, d)
    decreases |d|
  {
    if d != [] {
      hide ParseNext, KnownSentence, Tells, YieldSentence, SentenceOk;
      assert d[0] in d && DocumentOk(d[1..]);
      assert Spans(toks, st.i, |toks|, YieldSentence(d[0]) + YieldAll(d[1..]));
      var m := Split(toks, st.i, |toks|, YieldSentence(d[0]), YieldAll(d[1..]));
      SentenceAccepts(k, toks, st, d[0], m);
      if ParseNext(toks, st).Ok? { DocumentAccepts(AfterSentence(k, d[0]), toks, ParseNext(toks, st).value, d[1..]); }
    }
  }

  /** Every token list: it is parsed exactly when it is the tokens of a document all of whose names resolve
      where they stand. */
  lemma AcceptsExactly(toks: seq<Token>)
    ensures ParseDocument(toks, Initial()).Ok? <==>
      exists d :: DocumentOk(d) && toks == YieldAll(d) && Scoped(Known({}, true), d)
  {
    hide ParseDocument, DocumentOk, Scoped, YieldAll;
    assert toks[0..] == toks && Tells(Known({}, true), Initial().scope);
    if ParseDocument(toks, Initial()).Ok? {
      var d := DocumentYields(toks, Initial());
      DocumentAccepts(Known({}, true), toks, Initial(), d);
    }
    forall d | DocumentOk(d) && toks == YieldAll(d) && Scoped(Known({}, true), d)
      ensures ParseDocument(toks, Initial()).Ok?
    {
      DocumentAccepts(Known({}, true), toks, Initial(), d);
    }
  }

  /** A datatype is read as any term, and what that emits and mints stays; only its value is dropped. */
  lemma DatatypeRead(toks: seq<Token>, st: State)
    requires st.i + 1 < |toks| && Quoted(toks[st.i]) && toks[st.i + 1] == Caret
    ensures ParseTerm(toks, st) ==
      match ParseTerm(toks, st.(i := st.i + 2))
      case Ok(p) => Ok(Parsed(TextValue(toks[st.i].text), p.st))
      case Err(e) => Err(e)
  {
    Opens(toks, st);
    hide ParseTerm;
  }

  // ----- What no document may contain

  /** Neither a number nor a word but the three the parser knows. */
  predicate Readable(tok: Token) {
    !tok.Number? && (tok.Word? ==> tok.text in {"true", "false", "a"})
  }

  lemma {:induction false} TreeReadable(t: Tree)
    requires TreeOk(t)
    ensures forall tok :: tok in Yield(t) ==> Readable(tok)
    decreases t, 0
  {
    match t
    case Typed(_, d) => TreeReadable(d);
    case Bracket(ps) => PairsReadable(ps);
    case Parens(ts) => ItemsReadable(ts);
    case _ =>
  }

  lemma {:induction false} ItemsReadable(ts: Trees)
    requires TreesOk(ts)
    ensures forall tok :: tok in YieldItems(ts) ==> Readable(tok)
    decreases ts, 0
  {
    if ts.ConsTree? {
      TreeReadable(ts.head);
      ItemsReadable(ts.tail);
    }
  }

  lemma {:induction false} ObjectsReadable(os: ObjectTrees)
    requires ObjectTreesOk(os)
    ensures forall tok :: tok in YieldObjects(os) ==> Readable(tok)
    decreases os, 0
  {
    TreeReadable(os.item);
    if os.MoreTrees? { ObjectsReadable(os.rest); }
  }

  lemma {:induction false} PairsReadable(ps: PairTree)
    requires PairTreeOk(ps)
    ensures forall tok :: tok in YieldPairs(ps) ==> Readable(tok)
    decreases ps, 0
  {
    TreeReadable(ps.verb);
    ObjectsReadable(ps.objects);
    if ps.NextPair? { PairsReadable(ps.rest); }
  }

  predicate ReadableAt(ys: seq<Token>, n: nat)
    requires n < |ys|
  {
    Readable(ys[n]) || (n > 0 && ys[n - 1] == Directive("@prefix"))
  }

  ghost predicate AllReadable(ys: seq<Token>) {
    forall n: nat :: n < |ys| ==> ReadableAt(ys, n)
  }

  lemma ReadableJoin(a: seq<Token>, b: seq<Token>)
    requires AllReadable(a) && AllReadable(b)
    ensures AllReadable(a + b)
  {
    forall n: nat | n < |a + b|
      ensures ReadableAt(a + b, n)
    {
      if n < |a| { assert ReadableAt(a, n); } else { assert ReadableAt(b, n - |a|); }
    }
  }

  lemma ReadableAll(ys: seq<Token>)
    requires forall tok :: tok in ys ==> Readable(tok)
    ensures AllReadable(ys)
  {
  }

  lemma SentenceReadable(s: Sentence)
    requires SentenceOk(s)
    ensures AllReadable(YieldSentence(s))
  {
    match s
    case Prefix(name, value) =>
      TreeReadable(value);
      var head := [Directive("@prefix"), name];
      assert ReadableAt(head, 0) && ReadableAt(head, 1);
      ReadableAll(Yield(value) + [Punct(Dot)]);
      ReadableJoin(head, Yield(value) + [Punct(Dot)]);
    case Base(value) =>
      TreeReadable(value);
      ReadableAll([Directive("@base")] + (Yield(value) + [Punct(Dot)]));
    case Facts(subject, pairs) =>
      TreeReadable(subject);
      PairsReadable(pairs);
      ReadableAll(Yield(subject) + (YieldPairs(pairs) + [Punct(Dot)]));
  }

  lemma {:induction false} DocumentReadable(d: seq<Sentence>)
    requires DocumentOk(d)
    ensures AllReadable(YieldAll(d))
    decreases |d|
  {
    if d != [] {
      hide SentenceOk, YieldSentence, AllReadable;
      assert d[0] in d && DocumentOk(d[1..]);
      SentenceReadable(d[0]);
      DocumentReadable(d[1..]);
      ReadableJoin(YieldSentence(d[0]), YieldAll(d[1..]));
    } else {
      ReadableAll(YieldAll(d));
    }
  }

  /** A bare number, and any word but `a`, `true` and `false`, is accepted nowhere but right behind `@prefix`. */
  lemma NumbersRefused(toks: seq<Token>, n: nat)
    requires ParseDocument(toks, Initial()).Ok? && n < |toks|
    requires toks[n].Number? || (toks[n].Word? && toks[n].text !in {"true", "false", "a"})
    ensures n > 0 && toks[n - 1] == Directive("@prefix")
  {
    hide ParseDocument, DocumentOk, YieldAll;
    var d := DocumentYields(toks, Initial());
    DocumentReadable(d);
    assert YieldAll(d) == toks;
    assert ReadableAt(toks, n);
  }

  /** There it is: the parser takes whatever token comes for the name of a prefix. */
  lemma NumberNamesPrefix(number: string, iri: string)
    requires ':' in iri
    ensures ParseDocument([Directive("@prefix"), Number(number), Iri("<" + iri + ">"), Punct(Dot)], Initial()).Ok?
  {
    var s := Prefix(Number(number), Leaf(Iri("<" + iri + ">")));
    var d, toks := [s], [Directive("@prefix"), Number(number), Iri("<" + iri + ">"), Punct(Dot)];
    assert d[1..] == [] && YieldAll(d[1..]) == [] && YieldAll(d) == YieldSentence(s) + [];
    assert YieldSentence(s) == toks;
    assert Inner("<" + iri + ">") == iri;
    var k := Known({}, true);
    assert KnownSentence(k, s) && Scoped(AfterSentence(k, s), d[1..]) && Scoped(k, d);
    assert SentenceOk(s) && DocumentOk(d);
    hide ParseDocument, DocumentOk, Scoped, YieldAll;
    AcceptsExactly(toks);
  }
}
