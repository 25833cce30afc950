/** What a token of the MCP authorization flow goes back to, told on the steps of a run alone: which requests
    there must have been, in which order, with which contents and how far apart. */
module ConsentRuns {
  import opened Text
  import opened SingleUse
  import opened ConsentProtocol

  // ----- Resources

  function Slashes(n: nat): string {
    if n == 0 then "" else Slashes(n - 1) + "/"
  }

  predicate Bare(o: string) {
    o == "" || o[|o| - 1] != '/'
  }

  lemma TrimOne(v: string)
    ensures TrimSlashes(v + "/") == TrimSlashes(v)
  {
    assert (v + "/")[..|v|] == v;
  }

  lemma TrimNone(o: string)
    requires Bare(o)
    ensures TrimSlashes(o) == o
  {
  }

  lemma {:induction false} TrimUndoes(o: string, n: nat)
    requires Bare(o)
    ensures TrimSlashes(o + Slashes(n)) == o
  {
    hide TrimSlashes, Bare;
    if n == 0 {
      assert o + Slashes(0) == o;
      TrimNone(o);
    } else {
      TrimUndoes(o, n - 1);
      assert o + Slashes(n) == (o + Slashes(n - 1)) + "/";
      TrimOne(o + Slashes(n - 1));
    }
  }

  lemma {:induction false} TrimLeaves(v: string) returns (n: nat)
    ensures v == TrimSlashes(v) + Slashes(n) && Bare(TrimSlashes(v))
  {
    n := 0;
    if v != "" && v[|v| - 1] == '/' {
      var m := TrimLeaves(v[..|v| - 1]);
      n := m + 1;
      assert v == v[..|v| - 1] + "/";
    }
  }

  /** A resource is an origin or its `/mcp`, with any number of slashes behind it. */
  lemma ResourceExactly(cfg: Config, v: string)
    requires forall o :: o in cfg.origins ==> o != "" && o[|o| - 1] != '/'
    ensures IsResource(cfg, v) <==> exists o, n: nat :: o in cfg.origins && Names(v, o, n)
  {
    forall o | o in cfg.origins
      ensures TrimSlashes(v) == o || TrimSlashes(v) == o + "/mcp" <==> exists n: nat :: Names(v, o, n)
    {
      OriginNamed(v, o);
    }
    hide Names, TrimSlashes;
  }

  predicate Names(v: string, o: string, n: nat) {
    v == o + Slashes(n) || v == (o + "/mcp") + Slashes(n)
  }

  lemma OriginNamed(v: string, o: string)
    requires Bare(o)
    ensures TrimSlashes(v) == o || TrimSlashes(v) == o + "/mcp" <==> exists n: nat :: Names(v, o, n)
  {
    hide TrimSlashes, Slashes;
    assert Bare(o + "/mcp");
    if TrimSlashes(v) == o || TrimSlashes(v) == o + "/mcp" {
      var n := TrimLeaves(v);
      assert Names(v, o, n);
    }
    if n: nat :| Names(v, o, n) {
      if v == o + Slashes(n) { TrimUndoes(o, n); } else { TrimUndoes(o + "/mcp", n); }
    }
  }

  // ----- Authorize and callback, case by case

  /** Which authorize requests start a login, and with which error the others are sent back. */
  lemma AuthorizeExactly(cfg: Config, q: AuthRequest, now: int, nonce: string, state: string)
    ensures var r := Authorize(cfg, q, now, nonce, state);
      var known := q.client in cfg.clients && q.redirect in cfg.clients[q.client];
      var complete := q.responseType == "code" && q.challengeMethod == "S256" && q.challenge != "" && q.state != ""
                      && (|cfg.origins| <= 1 || q.resource != "");
      var target := q.resource == "" || IsResource(cfg, q.resource);
      && (r.ErrorPage? <==> !known)
      && (r == SentBack(q.redirect, "invalid_request", q.state) <==> known && !complete)
      && (r == SentBack(q.redirect, "invalid_target", q.state) <==> known && complete && !target)
      && (r.LoginStarted? <==> known && complete && target)
      && (r.LoginStarted? ==>
          && r.intent == Intent(q.client, q.redirect, q.challenge, q.resource, q.state, nonce, now + 600)
          && r.login == Login(state, nonce, now + 600))
  {
    hide IsResource;
  }

  /** Which command-line logins start: manual ones drop their redirect, the others need a loopback one. */
  lemma CliLoginExactly(cfg: Config, redirect: string, mode: string, state: string, nonce: string, exp: int)
    ensures var r := CliLoginIntent(cfg, redirect, mode, state, nonce, exp);
      var loopback := (mode == "" || mode == "loopback") && cfg.loopback(redirect);
      && (r.Some? <==> state != "" && (mode == "manual" || loopback))
      && (r.Some? ==> r.value == if mode == "manual" then CliIntent("", state, "manual", nonce, exp)
                                 else CliIntent(redirect, state, "loopback", nonce, exp))
  {
  }

  // ----- The clock and the steps of a run

  /** Only waiting moves the clock. */
  function Clock(now: int, actions: seq<Action>): int {
    if actions == [] then now
    else
      var last := actions[|actions| - 1];
      Clock(now, actions[..|actions| - 1]) + if last.Wait? then last.seconds else 0
  }

  lemma {:induction false} RunSnoc(cfg: Config, w: World, actions: seq<Action>)
    requires actions != []
    ensures Run(cfg, w, actions) == Next(cfg, Run(cfg, w, actions[..|actions| - 1]), actions[|actions| - 1])
    decreases |actions|
  {
    hide Next;
    var n := |actions| - 1;
    if n == 0 {
      assert actions[1..] == [] && actions[..0] == [];
    } else {
      RunSnoc(cfg, Next(cfg, w, actions[0]), actions[1..]);
      assert actions[1..][..n - 1] == actions[..n][1..];
    }
  }

  lemma {:induction false} RunClock(cfg: Config, now: int, actions: seq<Action>)
    ensures Run(cfg, Start(now), actions).now == Clock(now, actions)
  {
    if actions != [] {
      var n := |actions| - 1;
      RunClock(cfg, now, actions[..n]);
      RunSnoc(cfg, Start(now), actions);
      StepClock(cfg, Run(cfg, Start(now), actions[..n]), actions[n]);
    }
  }

  lemma StepClock(cfg: Config, w: World, a: Action)
    ensures Next(cfg, w, a).now == w.now + if a.Wait? then a.seconds else 0
  {
    hide AfterAuthorize, AfterPlainLogin, AfterCliLogin, AfterCallback, AfterConsent, AfterToken, AfterCliToken, Fresh;
    KeptByStart(cfg, w, a);
    KeptByCallback(w, a);
    KeptByConsent(w, a);
    KeptByTokens(cfg, w, a);
  }

  // ----- Which step added a record

  ghost predicate SameTokens(w: World, v: World) {
    v.now == w.now && v.tokens == w.tokens && v.cliTokens == w.cliTokens
  }

  ghost predicate SameStores(w: World, v: World) {
    v.consents == w.consents && v.codes == w.codes && v.cliCodes == w.cliCodes && v.sessions == w.sessions
    && v.allowed == w.allowed
  }

  ghost predicate Fewer<T(!new)>(m: map<string, T>, v: map<string, T>) {
    forall id :: id in v ==> id in m && m[id] == v[id]
  }

  lemma KeptByCookies(w: World, intent: Payload, login: Login)
    ensures SameTokens(w, AfterStart(w, intent, login)) && SameStores(w, AfterStart(w, intent, login))
  {
  }

  lemma KeptByStart(cfg: Config, w: World, a: Action)
    ensures a.AuthorizeStep? ==> var v := AfterAuthorize(cfg, w, a.q, a.nonce, a.state); SameTokens(w, v) && SameStores(w, v)
    ensures a.PlainLogin? ==> var v := AfterPlainLogin(w, a.state); SameTokens(w, v) && SameStores(w, v) && v.starts == w.starts
    ensures a.CliLogin? ==>
      var v := AfterCliLogin(cfg, w, a.redirect, a.mode, a.cliState, a.nonce, a.state); SameTokens(w, v) && SameStores(w, v)
  {
    hide Authorize, CliLoginIntent, AfterStart;
    match a
    case AuthorizeStep(q, nonce, state) =>
      var r := Authorize(cfg, q, w.now, nonce, state);
      if r.LoginStarted? { KeptByCookies(w, McpPayload(r.intent), r.login); }
    case CliLogin(redirect, mode, cliState, nonce, state) =>
      var c := CliLoginIntent(cfg, redirect, mode, cliState, nonce, w.now + OAUTH_STATE_MAX_AGE);
      if c.Some? { KeptByCookies(w, CliPayload(c.value), Login(state, nonce, w.now + OAUTH_STATE_MAX_AGE)); }
    case _ =>
  }

  lemma KeptByBegin(w: World, b: Begun, id: string)
    ensures var v := AfterBegin(w, b, id);
      && SameTokens(w, v) && v.codes == w.codes && v.cliCodes == w.cliCodes && v.starts == w.starts && v.allowed == w.allowed
      && v.consents == Put(w.consents, id, PendingOf(b), b.at) && v.sessions == w.sessions + {Session(b.actor, b.at + 43200)}
  {
    hide Put, PendingOf;
  }

  lemma KeptByCliBegin(w: World, b: CliBegun, code: string)
    ensures var v := AfterCliBegin(w, b, code);
      && SameTokens(w, v) && v.codes == w.codes && v.consents == w.consents && v.starts == w.starts && v.sessions == w.sessions
      && v.allowed == w.allowed && v.cliCodes == Minted(w.cliCodes, code, b.actor, AsCli(b.cookie).state, b.at)
  {
    hide Minted, AsCli;
  }

  lemma KeptByCallback(w: World, a: Action)
    ensures a.CallbackStep? ==>
      var v := AfterCallback(w, a.callback, a.id);
      SameTokens(w, v) && v.codes == w.codes && v.starts == w.starts && v.allowed == w.allowed
  {
    if a.CallbackStep? {
      hide EndOf, Verified, Put, Minted, PendingOf, AfterBegin, AfterCliBegin, AsCli;
      var r := Verified(w, a.callback);
      EndNeeds(r, w.now);
      match EndOf(r, w.now)
      case ToConsent(p) => KeptByBegin(w, Begun(p, r.login.value, r.actor.value, w.now), a.id);
      case ToCli(p) => KeptByCliBegin(w, CliBegun(p, r.login.value, r.actor.value, w.now), a.id);
      case _ =>
    }
  }

  lemma EndNeeds(r: CallbackRequest, now: int)
    ensures !EndOf(r, now).NoLogin? ==> r.login.Some? && r.actor.Some?
  {
  }

  /** What a callback changes in the stores, by the request's own cookies. */
  lemma CallbackStores(w: World, request: CallbackRequest, id: string)
    ensures var v, end := AfterCallback(w, request, id), EndOf(Verified(w, request), w.now);
      && (!end.ToConsent? ==> v.consents == w.consents)
      && (!end.ToCli? ==> v.cliCodes == w.cliCodes)
      && (end.NoLogin? ==> v.sessions == w.sessions)
      && (!end.NoLogin? ==> ByCallback(w, request))
      && (end.ToCli? ==> v.sessions == w.sessions)
      && (end.ToConsent? || end.ToWeb? ==> v.sessions == w.sessions + {Session(request.actor.value, w.now + 43200)})
      && (end.ToConsent? ==> v.consents == Put(w.consents, id, Pending(AsMcp(end.mcp), request.actor.value), w.now))
      && (end.ToCli? ==> v.cliCodes == Minted(w.cliCodes, id, request.actor.value, AsCli(end.cli).state, w.now))
  {
    var r := Verified(w, request);
    EndNeeds(r, w.now);
    CallbackCookies(w, request);
    hide EndOf, Verified, Put, Minted, AfterBegin, AfterCliBegin, AsCli, AsMcp, ByCallback;
    match EndOf(r, w.now)
    case ToConsent(p) => KeptByBegin(w, Begun(p, r.login.value, r.actor.value, w.now), id);
    case ToCli(p) => KeptByCliBegin(w, CliBegun(p, r.login.value, r.actor.value, w.now), id);
    case _ =>
  }

  lemma CallbackCookies(w: World, request: CallbackRequest)
    ensures var r := Verified(w, request);
      var end := EndOf(r, w.now);
      && r.actor == request.actor
      && (!end.NoLogin? ==> ByCallback(w, request) && r.login == request.login)
      && (end.ToConsent? ==>
          && request.mcp == Some(end.mcp) && end.mcp in w.signed && w.now < AsMcp(end.mcp).exp
          && AsMcp(end.mcp).nonce == AsLogin(request.login.value).nonce != "")
      && (end.ToCli? ==>
          && request.cli == Some(end.cli) && end.cli in w.signed && w.now < AsCli(end.cli).exp
          && AsCli(end.cli).nonce == AsLogin(request.login.value).nonce != "")
  {
    hide AsMcp, AsCli;
  }

  lemma KeptByConsent(w: World, a: Action)
    ensures a.ConsentStep? ==>
      var v := AfterConsent(w, a.consent, a.code);
      && SameTokens(w, v) && v.starts == w.starts && v.sessions == w.sessions && v.cliCodes == w.cliCodes
      && Fewer(w.consents, v.consents)
  {
    if a.ConsentStep? {
      var r := a.consent.(session := Signed(a.consent.session, w.sessions));
      ConsentSpends(w.consents, w.codes, r, a.code, w.now);
      hide HandleConsent, Signed, Fewer;
    }
  }

  lemma ConsentSpends(consents: Entries<Pending>, codes: Entries<Code>, r: ConsentRequest, code: string, now: int)
    ensures Fewer(consents, HandleConsent(consents, codes, r, code, now).consents)
  {
    hide Put, CodeOf, Consented;
  }

  lemma KeptByToken(cfg: Config, w: World, r: TokenRequest)
    ensures var v := AfterToken(cfg, w, r);
      && v.now == w.now && v.starts == w.starts && v.sessions == w.sessions && v.consents == w.consents
      && v.cliCodes == w.cliCodes && v.cliTokens == w.cliTokens && v.allowed == w.allowed && Fewer(w.codes, v.codes)
  {
    hide Matches, MayRedeem;
  }

  lemma KeptByCliToken(w: World, code: string, state: string, stored: bool)
    ensures var v := AfterCliToken(w, code, state, stored);
      && v.now == w.now && v.starts == w.starts && v.sessions == w.sessions && v.consents == w.consents
      && v.codes == w.codes && v.tokens == w.tokens && v.allowed == w.allowed && Fewer(w.cliCodes, v.cliCodes)
  {
  }

  lemma KeptByTokens(cfg: Config, w: World, a: Action)
    ensures a.TokenStep? ==>
      var v := AfterToken(cfg, w, a.token);
      && v.now == w.now && v.starts == w.starts && v.sessions == w.sessions && v.consents == w.consents
      && v.cliCodes == w.cliCodes && v.cliTokens == w.cliTokens && v.allowed == w.allowed && Fewer(w.codes, v.codes)
    ensures a.CliTokenStep? ==>
      var v := AfterCliToken(w, a.cliCode, a.cliState, a.stored);
      && v.now == w.now && v.starts == w.starts && v.sessions == w.sessions && v.consents == w.consents
      && v.codes == w.codes && v.tokens == w.tokens && v.allowed == w.allowed && Fewer(w.cliCodes, v.cliCodes)
  {
    hide AfterToken, AfterCliToken, Fewer;
    if a.TokenStep? { KeptByToken(cfg, w, a.token); }
    if a.CliTokenStep? { KeptByCliToken(w, a.cliCode, a.cliState, a.stored); }
  }

  lemma NewToken(cfg: Config, w: World, a: Action, t: Token)
    requires t in Next(cfg, w, a).tokens && t !in w.tokens
    ensures a.TokenStep? && t.request == a.token && t.at == w.now
    ensures MayRedeem(cfg, t.request) && t.request.stored
    ensures Redeems(cfg, w.codes, t.request, w.now) && t.actor == w.codes[t.request.code].v.actor
  {
    hide AfterAuthorize, AfterPlainLogin, AfterCliLogin, AfterCallback, AfterConsent, AfterCliToken, Fresh, TrimSlashes, IsResource;
    KeptByStart(cfg, w, a);
    KeptByCallback(w, a);
    KeptByConsent(w, a);
    KeptByTokens(cfg, w, a);
  }

  lemma HandledCode(consents: Entries<Pending>, codes: Entries<Code>, r: ConsentRequest, minted: string, now: int, code: string)
    requires var m := HandleConsent(consents, codes, r, minted, now).codes; code in m && !(code in codes && codes[code] == m[code])
    ensures minted == code && r.allow && AsksFor(r, r.formId, now)
    ensures PendingFor(consents, r.formId, r.session.value.actor, now)
    ensures HandleConsent(consents, codes, r, minted, now).codes[code] == Entry(CodeFor(consents[r.formId].v), now + 300)
  {
  }

  /** A pending code was put there by an Allow of the consent it carries. */
  lemma NewCode(cfg: Config, w: World, a: Action, code: string)
    requires code in Next(cfg, w, a).codes && !(code in w.codes && w.codes[code] == Next(cfg, w, a).codes[code])
    ensures a.ConsentStep? && a.code == code && a.consent.allow
    ensures AsksFor(a.consent, a.consent.formId, w.now) && a.consent.session.value in w.sessions
    ensures PendingFor(w.consents, a.consent.formId, a.consent.session.value.actor, w.now)
    ensures Next(cfg, w, a).codes[code] == Entry(CodeFor(w.consents[a.consent.formId].v), w.now + 300)
  {
    hide AfterAuthorize, AfterPlainLogin, AfterCliLogin, AfterCallback, AfterToken, AfterCliToken, Fresh, HandleConsent, CodeFor;
    KeptByStart(cfg, w, a);
    KeptByCallback(w, a);
    KeptByTokens(cfg, w, a);
    if a.ConsentStep? {
      var r := a.consent.(session := Signed(a.consent.session, w.sessions));
      assert AfterConsent(w, a.consent, a.code).codes == HandleConsent(w.consents, w.codes, r, a.code, w.now).codes;
      if Next(cfg, w, a) != w { HandledCode(w.consents, w.codes, r, a.code, w.now, code); }
    }
  }

  function CodeFor(p: Pending): Code {
    Code(p.actor, p.intent.client, p.intent.redirect, p.intent.challenge, p.intent.resource)
  }

  /** The login cookie is signed, in time, and of the callback's state. */
  predicate ByCallback(w: World, r: CallbackRequest) {
    && r.login.Some? && r.login.value in w.signed && r.actor.Some?
    && w.now < AsLogin(r.login.value).exp && r.state == AsLogin(r.login.value).state
  }

  /** A pending consent was put there by a callback. */
  lemma NewConsent(cfg: Config, w: World, a: Action, id: string)
    requires id in Next(cfg, w, a).consents && !(id in w.consents && w.consents[id] == Next(cfg, w, a).consents[id])
    ensures a.CallbackStep? && a.id == id && ByCallback(w, a.callback)
    ensures a.callback.mcp.Some? && a.callback.mcp.value in w.signed
    ensures var i := AsMcp(a.callback.mcp.value);
      && i.nonce == AsLogin(a.callback.login.value).nonce != "" && w.now < i.exp
      && Next(cfg, w, a).consents[id] == Entry(Pending(i, a.callback.actor.value), w.now + 300)
  {
    hide AfterAuthorize, AfterPlainLogin, AfterCliLogin, AfterToken, AfterCliToken, AfterConsent, AfterCallback, Fresh, EndOf,
      Verified, AsMcp, ByCallback;
    KeptByStart(cfg, w, a);
    KeptByConsent(w, a);
    KeptByTokens(cfg, w, a);
    if a.CallbackStep? {
      CallbackStores(w, a.callback, a.id);
      CallbackCookies(w, a.callback);
    }
  }

  lemma NewSession(cfg: Config, w: World, a: Action, s: Session)
    requires s in Next(cfg, w, a).sessions && s !in w.sessions
    ensures a.CallbackStep? && ByCallback(w, a.callback)
    ensures s == Session(a.callback.actor.value, w.now + 43200)
  {
    hide AfterAuthorize, AfterPlainLogin, AfterCliLogin, AfterToken, AfterCliToken, AfterConsent, AfterCallback, Fresh, EndOf,
      Verified, ByCallback, Put, Minted;
    KeptByStart(cfg, w, a);
    KeptByConsent(w, a);
    KeptByTokens(cfg, w, a);
    if a.CallbackStep? { CallbackStores(w, a.callback, a.id); }
  }

  lemma NewStart(cfg: Config, w: World, a: Action, nonce: string)
    requires nonce in Next(cfg, w, a).starts && !(nonce in w.starts && w.starts[nonce] == Next(cfg, w, a).starts[nonce])
    requires Next(cfg, w, a).starts[nonce].intent.McpPayload?
    ensures a.AuthorizeStep? && a.nonce == nonce && Authorize(cfg, a.q, w.now, nonce, a.state).LoginStarted?
    ensures var r := Authorize(cfg, a.q, w.now, nonce, a.state);
      Next(cfg, w, a).starts[nonce] == Started(McpPayload(r.intent), r.login)
  {
    hide AfterPlainLogin, AfterCallback, AfterToken, AfterCliToken, AfterConsent, Fresh, Authorize, CliLoginIntent;
    KeptByStart(cfg, w, a);
    KeptByCallback(w, a);
    KeptByConsent(w, a);
    KeptByTokens(cfg, w, a);
    if a.AuthorizeStep? { AuthorizeExactly(cfg, a.q, w.now, a.nonce, a.state); }
  }

  lemma NewCliToken(cfg: Config, w: World, a: Action, t: CliToken)
    requires t in Next(cfg, w, a).cliTokens && t !in w.cliTokens
    ensures a.CliTokenStep? && a.stored && t.code == a.cliCode && t.code in w.cliCodes
    ensures var c := w.cliCodes[t.code]; c.state == a.cliState && w.now <= c.expires && t == CliToken(c.actor, t.code, c.state, w.now)
  {
    hide AfterAuthorize, AfterPlainLogin, AfterCliLogin, AfterCallback, AfterToken, AfterConsent, Fresh;
    KeptByStart(cfg, w, a);
    KeptByCallback(w, a);
    KeptByConsent(w, a);
    KeptByTokens(cfg, w, a);
  }

  lemma NewCliCode(cfg: Config, w: World, a: Action, code: string)
    requires code in Next(cfg, w, a).cliCodes && !(code in w.cliCodes && w.cliCodes[code] == Next(cfg, w, a).cliCodes[code])
    ensures a.CallbackStep? && a.id == code && ByCallback(w, a.callback)
    ensures a.callback.cli.Some? && a.callback.cli.value in w.signed
    ensures var c := AsCli(a.callback.cli.value);
      && c.nonce == AsLogin(a.callback.login.value).nonce != "" && w.now < c.exp
      && Next(cfg, w, a).cliCodes[code] == CliCode(a.callback.actor.value, c.state, w.now + 300)
  {
    hide AfterAuthorize, AfterPlainLogin, AfterCliLogin, AfterToken, AfterCliToken, AfterConsent, AfterCallback, Fresh, EndOf,
      Verified, AsCli, ByCallback;
    KeptByStart(cfg, w, a);
    KeptByConsent(w, a);
    KeptByTokens(cfg, w, a);
    if a.CallbackStep? {
      CallbackStores(w, a.callback, a.id);
      CallbackCookies(w, a.callback);
    }
  }

  // ----- The steps behind a record

  /** The world before step `i`. */
  function Before(cfg: Config, now: int, actions: seq<Action>, i: nat): World
    requires i <= |actions|
  {
    Run(cfg, Start(now), actions[..i])
  }

  /** What does not hold at the start and holds later begins to hold with some step. */
  lemma {:induction false} Begins(cfg: Config, now: int, actions: seq<Action>, n: nat, holds: World -> bool) returns (i: nat)
    requires n <= |actions| && !holds(Start(now)) && holds(Before(cfg, now, actions, n))
    ensures i < n && !holds(Before(cfg, now, actions, i)) && holds(Next(cfg, Before(cfg, now, actions, i), actions[i]))
    ensures Before(cfg, now, actions, i).now == Clock(now, actions[..i]) && Inv(cfg, Before(cfg, now, actions, i))
  {
    hide Next, Inv;
    if n > 0 {
      i := n - 1;
      assert actions[..n][..i] == actions[..i];
      RunSnoc(cfg, Start(now), actions[..n]);
      if holds(Before(cfg, now, actions, i)) {
        i := Begins(cfg, now, actions, i, holds);
      } else {
        RunClock(cfg, now, actions[..i]);
        ReachedKeeps(cfg, now, actions[..i]);
      }
    }
  }

  /** Step `k` was an Allow that put the code up as step `l` finds it. */
  ghost predicate AllowAt(cfg: Config, now: int, actions: seq<Action>, k: nat, l: nat, code: string)
    requires l <= |actions| && code in Before(cfg, now, actions, l).codes
  {
    && k < l && actions[k].ConsentStep? && actions[k].code == code && actions[k].consent.allow
    && var r, w := actions[k].consent, Before(cfg, now, actions, k);
    && AsksFor(r, r.formId, Clock(now, actions[..k])) && r.session.value in w.sessions
    && PendingFor(w.consents, r.formId, r.session.value.actor, Clock(now, actions[..k]))
    && Before(cfg, now, actions, l).codes[code] == Entry(CodeFor(w.consents[r.formId].v), Clock(now, actions[..k]) + 300)
  }

  lemma CodeStep(cfg: Config, now: int, actions: seq<Action>, l: nat, code: string) returns (k: nat)
    requires l <= |actions| && code in Before(cfg, now, actions, l).codes
    ensures AllowAt(cfg, now, actions, k, l, code)
  {
    hide Run, Next, Inv, AsksFor, PendingFor, CodeFor, Before;
    assert Start(now).codes == map[];
    var e := Before(cfg, now, actions, l).codes[code];
    k := Begins(cfg, now, actions, l, (w: World) => code in w.codes && w.codes[code] == e);
    NewCode(cfg, Before(cfg, now, actions, k), actions[k], code);
  }

  /** Step `j` was a callback that put the consent up as step `k` finds it. */
  ghost predicate ConsentAt(cfg: Config, now: int, actions: seq<Action>, j: nat, k: nat, id: string)
    requires k <= |actions| && id in Before(cfg, now, actions, k).consents
  {
    && j < k && actions[j].CallbackStep? && actions[j].id == id
    && CallbackAt(cfg, now, actions, j)
    && var r := actions[j].callback;
    Before(cfg, now, actions, k).consents[id] == Entry(Pending(AsMcp(r.mcp.value), r.actor.value), Clock(now, actions[..j]) + 300)
  }

  /** Both its cookies are signed, in time, and under one nonce. */
  ghost predicate CallbackAt(cfg: Config, now: int, actions: seq<Action>, j: nat)
    requires j < |actions| && actions[j].CallbackStep?
  {
    var r, w := actions[j].callback, Before(cfg, now, actions, j);
    && Inv(cfg, w) && w.now == Clock(now, actions[..j]) && ByCallback(w, r) && r.mcp.Some? && r.mcp.value in w.signed
    && AsMcp(r.mcp.value).nonce == AsLogin(r.login.value).nonce != "" && w.now < AsMcp(r.mcp.value).exp
  }

  lemma ConsentStep(cfg: Config, now: int, actions: seq<Action>, k: nat, id: string) returns (j: nat)
    requires k <= |actions| && id in Before(cfg, now, actions, k).consents
    ensures ConsentAt(cfg, now, actions, j, k, id)
  {
    hide Run, Next, Inv, ByCallback, AsMcp, AsLogin, Before;
    assert Start(now).consents == map[];
    var e := Before(cfg, now, actions, k).consents[id];
    j := Begins(cfg, now, actions, k, (w: World) => id in w.consents && w.consents[id] == e);
    NewConsent(cfg, Before(cfg, now, actions, j), actions[j], id);
  }

  /** The callback behind a session. */
  lemma SessionStep(cfg: Config, now: int, actions: seq<Action>, k: nat, s: Session) returns (m: nat)
    requires k <= |actions| && s in Before(cfg, now, actions, k).sessions
    ensures m < k && IssuesSession(actions, m, s.actor) && s.exp == Clock(now, actions[..m]) + 43200
  {
    hide Run, Next, Inv, Before;
    assert Start(now).sessions == {};
    m := Begins(cfg, now, actions, k, (w: World) => s in w.sessions);
    NewSession(cfg, Before(cfg, now, actions, m), actions[m], s);
  }

  /** The authorize behind a signed intent. */
  lemma StartStep(cfg: Config, now: int, actions: seq<Action>, j: nat, nonce: string) returns (i: nat)
    requires j <= |actions| && nonce in Before(cfg, now, actions, j).starts
    requires Before(cfg, now, actions, j).starts[nonce].intent.McpPayload?
    ensures i < j && Authorizes(cfg, now, actions, i)
    ensures Before(cfg, now, actions, j).starts[nonce] ==
      Started(IntentAt(now, actions, i), Login(actions[i].state, actions[i].nonce, Clock(now, actions[..i]) + 600))
  {
    hide Run, Next, Inv, Authorize, IsResource, Before;
    assert Start(now).starts == map[];
    var s := Before(cfg, now, actions, j).starts[nonce];
    i := Begins(cfg, now, actions, j, (w: World) => nonce in w.starts && w.starts[nonce] == s);
    var w := Before(cfg, now, actions, i);
    NewStart(cfg, w, actions[i], nonce);
    AuthorizeExactly(cfg, actions[i].q, w.now, nonce, actions[i].state);
  }

  /** The cookies of a callback that begins a consent for a registered client are those of one authorize. */
  lemma CookieStep(cfg: Config, now: int, actions: seq<Action>, j: nat) returns (i: nat)
    requires "" !in cfg.clients && j < |actions| && actions[j].CallbackStep?
    requires CallbackAt(cfg, now, actions, j) && AsMcp(actions[j].callback.mcp.value).client in cfg.clients
    ensures i < j && Authorizes(cfg, now, actions, i) && Logs(now, actions, i, j, actions[j].callback.actor.value)
  {
    hide Run, Authorizes, Before;
    var r, w := actions[j].callback, Before(cfg, now, actions, j);
    CookiesOfOneStart(cfg, w, r.mcp.value, r.login.value);
    hide Inv;
    i := StartStep(cfg, now, actions, j, NonceOf(r.mcp.value));
  }

  lemma CookiesOfOneStart(cfg: Config, w: World, cookie: Payload, login: Payload)
    requires Inv(cfg, w) && cookie in w.signed && login in w.signed && "" !in cfg.clients && AsMcp(cookie).client in cfg.clients
    requires AsMcp(cookie).nonce == AsLogin(login).nonce != "" && w.now < AsMcp(cookie).exp && w.now < AsLogin(login).exp
    ensures NonceOf(cookie) in w.starts && cookie == w.starts[NonceOf(cookie)].intent && cookie.McpPayload?
    ensures OfStart(login, w.starts[NonceOf(cookie)])
  {
    hide BegunOk, AllowedOk, ConsentsOk, CodesOk, TokensOk, CliOk, StartWell, Accepted, AcceptedCli, OfStart;
    NonceOnce(cookie);
    CookieToldExactly(cfg, w, cookie, login, w.now);
  }

  lemma NonceOnce(p: Payload)
    ensures NonceOf(p) == AsMcp(p).nonce == AsLogin(p).nonce == AsCli(p).nonce
    ensures AsMcp(p).exp == AsLogin(p).exp == AsCli(p).exp
  {
  }

  /** The four requests behind a token, and the callback that issued the session of the Allow. */
  ghost predicate GoesBack(cfg: Config, now: int, actions: seq<Action>, t: Token, i: nat, j: nat, m: nat, k: nat, l: nat) {
    && i < j < k < l < |actions| && m < k
    && Authorizes(cfg, now, actions, i)
    && Logs(now, actions, i, j, t.actor)
    && IssuesSession(actions, m, t.actor)
    && Allows(now, actions, j, m, k, t.actor)
    && Redemption(cfg, now, actions, i, k, l, t)
  }

  predicate Authorizes(cfg: Config, now: int, actions: seq<Action>, i: nat)
    requires i < |actions|
  {
    && actions[i].AuthorizeStep?
    && var q := actions[i].q;
    && q.client in cfg.clients && q.redirect in cfg.clients[q.client]
    && q.responseType == "code" && q.challengeMethod == "S256" && q.challenge != "" && q.state != ""
    && (q.resource == "" ==> |cfg.origins| <= 1) && (q.resource != "" ==> IsResource(cfg, q.resource))
  }

  function IntentAt(now: int, actions: seq<Action>, i: nat): Payload
    requires i < |actions| && actions[i].AuthorizeStep?
  {
    var q := actions[i].q;
    McpPayload(Intent(q.client, q.redirect, q.challenge, q.resource, q.state, actions[i].nonce, Clock(now, actions[..i]) + 600))
  }

  /** A callback with the intent cookie of the authorize and a login cookie of it, its state, in time. */
  predicate Logs(now: int, actions: seq<Action>, i: nat, j: nat, actor: string)
    requires i < |actions| && j < |actions| && actions[i].AuthorizeStep?
  {
    && actions[j].CallbackStep?
    && var r := actions[j].callback;
    && r.mcp == Some(IntentAt(now, actions, i)) && r.actor == Some(actor)
    && Clock(now, actions[..j]) < Clock(now, actions[..i]) + 600
    && ((r.login == Some(LoginPayload(Login(actions[i].state, actions[i].nonce, Clock(now, actions[..i]) + 600))) && r.state == actions[i].state)
        || (r.login == r.mcp && r.state == actions[i].q.state))
  }

  predicate IssuesSession(actions: seq<Action>, m: nat, actor: string)
    requires m < |actions|
  {
    actions[m].CallbackStep? && actions[m].callback.actor == Some(actor)
  }

  /** The Allow of the consent that the callback put up, from the same origin and by the same actor. */
  predicate Allows(now: int, actions: seq<Action>, j: nat, m: nat, k: nat, actor: string)
    requires j < |actions| && k < |actions| && m < |actions| && actions[j].CallbackStep?
  {
    && actions[k].ConsentStep?
    && var r := actions[k].consent;
    && r.allow && r.sameOrigin && r.formId == actions[j].id != "" && r.cookieId == Some(actions[j].id)
    && r.session == Some(Session(actor, Clock(now, actions[..m]) + 43200))
    && Clock(now, actions[..k]) < Clock(now, actions[..m]) + 43200
    && Clock(now, actions[..k]) <= Clock(now, actions[..j]) + 300
  }

  /** The token request: that code, in time, with the client, redirect and resource of the authorize, and a
      verifier for its challenge. */
  predicate Redemption(cfg: Config, now: int, actions: seq<Action>, i: nat, k: nat, l: nat, t: Token)
    requires i < |actions| && k < |actions| && l < |actions| && actions[i].AuthorizeStep? && actions[k].ConsentStep?
  {
    && actions[l].TokenStep? && t.request == actions[l].token && t.at == Clock(now, actions[..l])
    && var q, r := actions[i].q, actions[l].token;
    && r.grantType == "authorization_code" && r.code == actions[k].code && r.stored
    && r.client == q.client && r.redirect == q.redirect && r.verifier != "" && cfg.hash(r.verifier) == q.challenge
    && (r.resource == "" || IsResource(cfg, r.resource))
    && (TrimSlashes(r.resource) == "" || q.resource == "" || TrimSlashes(r.resource) == TrimSlashes(q.resource))
    && Clock(now, actions[..l]) <= Clock(now, actions[..k]) + 300
  }

  ghost predicate TokenAt(cfg: Config, now: int, actions: seq<Action>, l: nat, t: Token) {
    && l < |actions| && actions[l].TokenStep? && t.request == actions[l].token && t.at == Clock(now, actions[..l])
    && MayRedeem(cfg, t.request) && t.request.stored
    && var w := Before(cfg, now, actions, l);
    && Redeems(cfg, w.codes, t.request, Clock(now, actions[..l])) && t.actor == w.codes[t.request.code].v.actor
  }

  lemma TokenStepOf(cfg: Config, now: int, actions: seq<Action>, t: Token) returns (l: nat)
    requires t in Run(cfg, Start(now), actions).tokens
    ensures TokenAt(cfg, now, actions, l, t)
  {
    hide Run, Next, Inv, Redeems, MayRedeem;
    assert Start(now).tokens == [] && actions[..|actions|] == actions;
    l := Begins(cfg, now, actions, |actions|, (w: World) => t in w.tokens);
    NewToken(cfg, Before(cfg, now, actions, l), actions[l], t);
  }

  lemma TokenClient(cfg: Config, now: int, actions: seq<Action>, t: Token, j: nat, k: nat, l: nat)
    requires TokenAt(cfg, now, actions, l, t) && AllowAt(cfg, now, actions, k, l, t.request.code)
    requires ConsentAt(cfg, now, actions, j, k, actions[k].consent.formId)
    ensures AsMcp(actions[j].callback.mcp.value).client in cfg.clients
  {
    hide Run, Inv, IsResource, TrimSlashes, CallbackAt, AsMcp, Clock, Before;
  }

  lemma TokenFits(cfg: Config, now: int, actions: seq<Action>, t: Token, i: nat, j: nat, m: nat, k: nat, l: nat)
    requires TokenAt(cfg, now, actions, l, t) && AllowAt(cfg, now, actions, k, l, t.request.code)
    requires ConsentAt(cfg, now, actions, j, k, actions[k].consent.formId)
    requires m < k && IssuesSession(actions, m, actions[k].consent.session.value.actor)
    requires actions[k].consent.session.value.exp == Clock(now, actions[..m]) + 43200
    requires i < j && Authorizes(cfg, now, actions, i) && Logs(now, actions, i, j, actions[j].callback.actor.value)
    ensures GoesBack(cfg, now, actions, t, i, j, m, k, l)
  {
    hide Run, Inv, IsResource, TrimSlashes, CallbackAt, Clock, Before;
  }

  /** Over every run, each token goes back to an authorize, a callback, an Allow and a token request of that
      run, in this order. Nobody who denies, and no form from another site, ever yields one. */
  lemma TokenFromSteps(cfg: Config, now: int, actions: seq<Action>, t: Token)
    requires "" !in cfg.clients && t in Run(cfg, Start(now), actions).tokens
    ensures exists i: nat, j: nat, m: nat, k: nat, l: nat :: GoesBack(cfg, now, actions, t, i, j, m, k, l)
  {
    hide Run, GoesBack, Logs, Authorizes, MayRedeem, CallbackAt, IssuesSession, Clock, Before;
    var l := TokenStepOf(cfg, now, actions, t);
    var k := CodeStep(cfg, now, actions, l, t.request.code);
    var m := SessionStep(cfg, now, actions, k, actions[k].consent.session.value);
    var j := ConsentStep(cfg, now, actions, k, actions[k].consent.formId);
    TokenClient(cfg, now, actions, t, j, k, l);
    var i := CookieStep(cfg, now, actions, j);
    TokenFits(cfg, now, actions, t, i, j, m, k, l);
  }

  lemma NewAllowed(cfg: Config, w: World, a: Action, code: string)
    requires code in Next(cfg, w, a).allowed && !(code in w.allowed && w.allowed[code] == Next(cfg, w, a).allowed[code])
    ensures a.ConsentStep? && a.code == code && a.consent.allow && AsksFor(a.consent, a.consent.formId, w.now)
    ensures Next(cfg, w, a).allowed[code] == Allowed(a.consent.formId, a.consent.session.value, w.now)
  {
    hide AfterAuthorize, AfterPlainLogin, AfterCliLogin, AfterCallback, AfterToken, AfterCliToken, Fresh, Put, CodeOf, Spent;
    KeptByStart(cfg, w, a);
    KeptByCallback(w, a);
    KeptByTokens(cfg, w, a);
  }

  /** Every code recorded as allowed was allowed: by an Allow of that consent, in that session, at that time. */
  lemma AllowedFromSteps(cfg: Config, now: int, actions: seq<Action>, code: string)
    requires code in Run(cfg, Start(now), actions).allowed
    ensures exists k: nat ::
      && k < |actions| && actions[k].ConsentStep? && actions[k].consent.allow && actions[k].code == code
      && AsksFor(actions[k].consent, actions[k].consent.formId, Clock(now, actions[..k]))
      && Run(cfg, Start(now), actions).allowed[code] ==
         Allowed(actions[k].consent.formId, actions[k].consent.session.value, Clock(now, actions[..k]))
  {
    assert actions[..|actions|] == actions && Start(now).allowed == map[];
    hide Run, Next, Inv, AsksFor;
    var a := Run(cfg, Start(now), actions).allowed[code];
    var k := Begins(cfg, now, actions, |actions|, (w: World) => code in w.allowed && w.allowed[code] == a);
    NewAllowed(cfg, Before(cfg, now, actions, k), actions[k], code);
  }

  /** And no code ever stands in the store that nobody allowed. */
  lemma CodesAllowed(cfg: Config, now: int, actions: seq<Action>, code: string)
    requires code in Run(cfg, Start(now), actions).codes
    ensures exists k: nat :: k < |actions| && actions[k].ConsentStep? && actions[k].consent.allow && actions[k].code == code
  {
    assert actions[..|actions|] == actions;
    hide Run;
    var k := CodeStep(cfg, now, actions, |actions|, code);
  }

  /** The callback and the request behind a command-line token. */
  ghost predicate CliGoesBack(now: int, actions: seq<Action>, t: CliToken, j: nat, l: nat) {
    && j < l < |actions| && actions[j].CallbackStep? && actions[l].CliTokenStep?
    && t.code == actions[j].id == actions[l].cliCode && actions[l].stored && t.state == actions[l].cliState
    && t.at == Clock(now, actions[..l]) <= Clock(now, actions[..j]) + 300
    && var r := actions[j].callback;
    && r.actor == Some(t.actor) && r.login.Some? && r.cli.Some? && r.state == AsLogin(r.login.value).state
    && AsCli(r.cli.value).state == t.state && AsCli(r.cli.value).nonce == AsLogin(r.login.value).nonce != ""
    && Clock(now, actions[..j]) < AsCli(r.cli.value).exp && Clock(now, actions[..j]) < AsLogin(r.login.value).exp
  }

  lemma CliTokenFromSteps(cfg: Config, now: int, actions: seq<Action>, t: CliToken)
    requires t in Run(cfg, Start(now), actions).cliTokens
    ensures exists j: nat, l: nat :: CliGoesBack(now, actions, t, j, l)
  {
    hide Run, Next, Inv, AsCli, AsLogin, Clock;
    assert Start(now).cliTokens == [] && Start(now).cliCodes == map[] && actions[..|actions|] == actions;
    var l := Begins(cfg, now, actions, |actions|, (w: World) => t in w.cliTokens);
    NewCliToken(cfg, Before(cfg, now, actions, l), actions[l], t);
    var e := Before(cfg, now, actions, l).cliCodes[t.code];
    var j := Begins(cfg, now, actions, l, (w: World) => t.code in w.cliCodes && w.cliCodes[t.code] == e);
    NewCliCode(cfg, Before(cfg, now, actions, j), actions[j], t.code);
    assert CliGoesBack(now, actions, t, j, l);
  }
}
