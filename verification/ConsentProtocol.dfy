/** The MCP authorization flow of `internal/api/mcpoauth.go` with the logins it rides on (`oidcweb.go`,
    `cliauth.go`): authorize, callback, consent, token, as steps over signed cookies, two single-use stores
    and a clock in seconds (sections 4.1.2 of RFC 6749 and 4.6 of RFC 7636). */
module ConsentProtocol {
  import opened Text
  import opened SingleUse

  const OAUTH_STATE_MAX_AGE: nat := 600
  const SESSION_LIFETIME: nat := 43200

  /** The registered clients with their exact redirect URIs, the origins clients may discover, and two
      functions that stay uninterpreted: the S256 transformation, and which URIs are loopback redirects. */
  datatype Config = Config(clients: map<string, set<string>>, origins: seq<string>, hash: string -> string,
                           loopback: string -> bool)

  // ----- Authorize

  function TrimSlashes(s: string): string {
    if s != "" && s[|s| - 1] == '/' then TrimSlashes(s[..|s| - 1]) else s
  }

  predicate IsResource(cfg: Config, v: string) {
    exists o :: o in cfg.origins && (TrimSlashes(v) == o || TrimSlashes(v) == o + "/mcp")
  }

  datatype AuthRequest = AuthRequest(client: string, redirect: string, responseType: string, challenge: string,
                                     challengeMethod: string, state: string, resource: string)

  /** The signed cookie of an authorize. */
  datatype Intent = Intent(client: string, redirect: string, challenge: string, resource: string, state: string,
                           nonce: string, exp: int)

  /** The signed login-state cookie; the nonce is `""` for a plain login. */
  datatype Login = Login(state: string, nonce: string, exp: int)

  /** The signed cookie of a command-line login. */
  datatype CliIntent = CliIntent(redirect: string, state: string, mode: string, nonce: string, exp: int)

  datatype Session = Session(actor: string, exp: int)

  datatype Authorized =
    | ErrorPage
    | SentBack(redirect: string, error: string, state: string)
    | LoginStarted(intent: Intent, login: Login)

  predicate Registered(cfg: Config, client: string, redirect: string) {
    client in cfg.clients && redirect in cfg.clients[client]
  }

  function Authorize(cfg: Config, q: AuthRequest, now: int, nonce: string, state: string): Authorized {
    if !Registered(cfg, q.client, q.redirect) then ErrorPage
    else if q.responseType != "code" || q.challenge == "" || q.challengeMethod != "S256" || q.state == ""
         || (q.resource == "" && |cfg.origins| > 1) then SentBack(q.redirect, "invalid_request", q.state)
    else if q.resource != "" && !IsResource(cfg, q.resource) then SentBack(q.redirect, "invalid_target", q.state)
    else LoginStarted(Intent(q.client, q.redirect, q.challenge, q.resource, q.state, nonce, now + OAUTH_STATE_MAX_AGE),
                      Login(state, nonce, now + OAUTH_STATE_MAX_AGE))
  }

  /** What every accepted authorize request satisfied. */
  predicate Accepted(cfg: Config, i: Intent) {
    && Registered(cfg, i.client, i.redirect) && i.challenge != "" && i.state != ""
    && (if i.resource == "" then |cfg.origins| <= 1 else IsResource(cfg, i.resource))
  }

  /** A redirect is only ever sent to a registered URI. */
  lemma AuthorizeRedirectsOnlyRegistered(cfg: Config, q: AuthRequest, now: int, nonce: string, state: string)
    ensures var r := Authorize(cfg, q, now, nonce, state);
      && (r.ErrorPage? <==> !Registered(cfg, q.client, q.redirect))
      && (r.SentBack? ==> Registered(cfg, q.client, r.redirect))
      && (r.LoginStarted? ==> Accepted(cfg, r.intent) && r.intent.nonce == r.login.nonce == nonce)
  {
  }

  // ----- Command-line login

  /** An empty mode means loopback; manual mode carries no redirect. */
  function CliLoginIntent(cfg: Config, redirect: string, mode: string, state: string, nonce: string, exp: int)
    : Option<CliIntent>
  {
    var mode := if mode == "" then "loopback" else mode;
    if state == "" then None
    else if mode == "manual" then Some(CliIntent("", state, mode, nonce, exp))
    else if mode == "loopback" && cfg.loopback(redirect) then Some(CliIntent(redirect, state, mode, nonce, exp))
    else None
  }

  /** What every accepted command-line login satisfied. */
  predicate AcceptedCli(cfg: Config, c: CliIntent) {
    c.state != "" && ((c.mode == "manual" && c.redirect == "") || (c.mode == "loopback" && cfg.loopback(c.redirect)))
  }

  // ----- Signed payloads

  /** What a login-flow cookie may hold. One key signs all three, and the signature says nothing about which
      cookie the payload was made for. (A session's payload is not JSON, so it is none of these.) */
  datatype Payload = LoginPayload(login: Login) | CliPayload(cli: CliIntent) | McpPayload(mcp: Intent)

  /** Decoding as a login state: fields are matched by tag (`s`, `nn` and `e` are shared), unknown ones are
      ignored, and missing ones are empty. */
  function AsLogin(p: Payload): Login {
    match p
    case LoginPayload(l) => l
    case CliPayload(c) => Login(c.state, c.nonce, c.exp)
    case McpPayload(i) => Login(i.state, i.nonce, i.exp)
  }

  /** Decoding as a command-line intent (the tag `r` is shared with MCP intents). */
  function AsCli(p: Payload): CliIntent {
    match p
    case LoginPayload(l) => CliIntent("", l.state, "", l.nonce, l.exp)
    case CliPayload(c) => c
    case McpPayload(i) => CliIntent(i.redirect, i.state, "", i.nonce, i.exp)
  }

  function AsMcp(p: Payload): Intent {
    match p
    case LoginPayload(l) => Intent("", "", "", "", l.state, l.nonce, l.exp)
    case CliPayload(c) => Intent("", c.redirect, "", "", c.state, c.nonce, c.exp)
    case McpPayload(i) => i
  }

  function NonceOf(p: Payload): string {
    AsLogin(p).nonce
  }

  // ----- Callback

  /** The payloads of the request's cookies, and the actor Keycloak vouches for, if the exchange succeeds. */
  datatype CallbackRequest = CallbackRequest(login: Option<Payload>, mcp: Option<Payload>, cli: Option<Payload>,
                                             state: string, actor: Option<string>)

  datatype Ended = NoLogin | ToConsent(mcp: Payload) | ToCli(cli: Payload) | ToWeb

  predicate LoginHolds(r: CallbackRequest, now: int) {
    r.login.Some? && now < AsLogin(r.login.value).exp && r.state == AsLogin(r.login.value).state && r.actor.Some?
  }

  /** An intent is honoured only when its nonce is the login's. */
  function EndOf(r: CallbackRequest, now: int): Ended {
    if !LoginHolds(r, now) then NoLogin
    else
      var nonce := NonceOf(r.login.value);
      if nonce != "" && r.mcp.Some? && now < AsMcp(r.mcp.value).exp && AsMcp(r.mcp.value).nonce == nonce then ToConsent(r.mcp.value)
      else if nonce != "" && r.cli.Some? && now < AsCli(r.cli.value).exp && AsCli(r.cli.value).nonce == nonce then ToCli(r.cli.value)
      else ToWeb
  }

  datatype Pending = Pending(intent: Intent, actor: string)

  // ----- Consent

  datatype ConsentRequest = ConsentRequest(sameOrigin: bool, session: Option<Session>, formId: string,
                                           cookieId: Option<string>, allow: bool)

  predicate MayConsent(r: ConsentRequest, now: int) {
    && r.sameOrigin && r.session.Some? && now < r.session.value.exp
    && r.cookieId.Some? && r.formId != "" && r.cookieId.value == r.formId
  }

  /** A form sent by the server's own page in a live session, naming the consent that its cookie names too. */
  predicate AsksFor(r: ConsentRequest, id: string, now: int) {
    && r.sameOrigin && r.session.Some? && r.session.value.exp > now
    && id != "" && r.formId == id && r.cookieId == Some(id)
  }

  /** The consent is there, in time, and this actor's. */
  predicate PendingFor(consents: Entries<Pending>, id: string, actor: string, now: int) {
    id in consents && now <= consents[id].expires && consents[id].v.actor == actor
  }

  /** The consent answered, when it is still pending and the session's own. */
  function Consented(consents: Entries<Pending>, r: ConsentRequest, now: int): Option<Pending>
    requires MayConsent(r, now)
  {
    var p := Found(consents, r.formId, now);
    if p.Some? && p.value.actor == r.session.value.actor then p else None
  }

  datatype Code = Code(actor: string, client: string, redirect: string, challenge: string, resource: string)

  function CodeOf(p: Pending): Code {
    Code(p.actor, p.intent.client, p.intent.redirect, p.intent.challenge, p.intent.resource)
  }

  datatype ConsentAnswer = ConsentRefused | Denied(redirect: string, state: string)
                         | CodeIssued(redirect: string, state: string, code: string)

  datatype ConsentHandled = ConsentHandled(consents: Entries<Pending>, codes: Entries<Code>, answer: ConsentAnswer)

  /** Any lookup spends the consent; only Allow mints a code. */
  function HandleConsent(consents: Entries<Pending>, codes: Entries<Code>, r: ConsentRequest, code: string, now: int)
    : (h: ConsentHandled)
    ensures h.answer.CodeIssued? ==> MayConsent(r, now)
  {
    if !MayConsent(r, now) then ConsentHandled(consents, codes, ConsentRefused)
    else
      var p, spent := Consented(consents, r, now), Spent(consents, r.formId);
      if p.None? then ConsentHandled(spent, codes, ConsentRefused)
      else
        var mi := p.value.intent;
        if !r.allow then ConsentHandled(spent, codes, Denied(mi.redirect, mi.state))
        else ConsentHandled(spent, Put(codes, code, CodeOf(p.value), now), CodeIssued(mi.redirect, mi.state, code))
  }

  // ----- Token

  /** `stored` is whether the store manages to create the token. */
  datatype TokenRequest = TokenRequest(grantType: string, client: string, redirect: string, code: string,
                                       verifier: string, resource: string, stored: bool)

  predicate MayRedeem(cfg: Config, r: TokenRequest) {
    && r.grantType == "authorization_code" && r.client in cfg.clients
    && (r.resource == "" || IsResource(cfg, r.resource))
  }

  predicate Matches(cfg: Config, c: Code, r: TokenRequest) {
    && c.client == r.client && c.redirect == r.redirect
    && r.verifier != "" && cfg.hash(r.verifier) == c.challenge
    && (TrimSlashes(r.resource) == "" || c.resource == "" || TrimSlashes(r.resource) == TrimSlashes(c.resource))
  }

  /** The code is there, in time, for this client and redirect; the verifier hashes to its challenge; and two
      resources that are both named agree. */
  predicate Redeems(cfg: Config, codes: Entries<Code>, r: TokenRequest, now: int) {
    && r.code in codes && now <= codes[r.code].expires
    && var c := codes[r.code].v;
    && r.client == c.client && r.redirect == c.redirect && r.verifier != "" && c.challenge == cfg.hash(r.verifier)
    && (c.resource != "" && TrimSlashes(r.resource) != "" ==> TrimSlashes(c.resource) == TrimSlashes(r.resource))
  }

  datatype TokenHandled = TokenHandled(codes: Entries<Code>, actor: Option<string>)

  /** Any lookup spends the code; the token is for the actor it was allowed by. */
  function HandleToken(cfg: Config, codes: Entries<Code>, r: TokenRequest, now: int): TokenHandled {
    if !MayRedeem(cfg, r) then TokenHandled(codes, None)
    else
      var c := Found(codes, r.code, now);
      var granted := c.Some? && Matches(cfg, c.value, r) && r.stored;
      TokenHandled(Spent(codes, r.code), if granted then Some(c.value.actor) else None)
  }

  // ----- The world

  /** What one authorize or command-line login signed under its nonce. */
  datatype Started = Started(intent: Payload, login: Login)

  /** How a consent came about (by which cookies), how a code did, and how a token did. */
  datatype Begun = Begun(cookie: Payload, login: Payload, actor: string, at: int)

  datatype Allowed = Allowed(consent: string, session: Session, at: int)

  datatype Token = Token(actor: string, request: TokenRequest, at: int)

  datatype CliBegun = CliBegun(cookie: Payload, login: Payload, actor: string, at: int)

  datatype CliToken = CliToken(actor: string, code: string, state: string, at: int)

  /** The stores and the clock; what has been drawn at random and signed so far; and the record of every
      login started, consent begun, code allowed and token created. */
  datatype World = World(now: int, used: set<string>, signed: set<Payload>, sessions: set<Session>,
                         consents: Entries<Pending>, codes: Entries<Code>, cliCodes: CliCodes,
                         starts: map<string, Started>,
                         begun: map<string, Begun>, allowed: map<string, Allowed>, tokens: seq<Token>,
                         cliBegun: map<string, CliBegun>, cliTokens: seq<CliToken>)

  datatype Action =
    | Wait(seconds: nat)
    | AuthorizeStep(q: AuthRequest, nonce: string, state: string)
    | PlainLogin(state: string)
    | CliLogin(redirect: string, mode: string, cliState: string, nonce: string, state: string)
    | CallbackStep(callback: CallbackRequest, id: string)
    | ConsentStep(consent: ConsentRequest, code: string)
    | TokenStep(token: TokenRequest)
    | CliTokenStep(cliCode: string, cliState: string, stored: bool)
    | Restart

  /** Signatures cannot be forged: a cookie that was not signed reads as no cookie. */
  function Signed<T>(cookie: Option<T>, signed: set<T>): Option<T> {
    if cookie.Some? && cookie.value in signed then cookie else None
  }

  /** Random draws do not repeat; a step that would repeat one does not happen. */
  predicate Fresh(w: World, draws: set<string>) {
    draws !! w.used && "" !in draws
  }

  /** Both cookies of a login with an intent, under one nonce. */
  function AfterStart(w: World, intent: Payload, login: Login): World {
    w.(used := w.used + {login.nonce, login.state}, signed := w.signed + {intent, LoginPayload(login)},
       starts := w.starts[login.nonce := Started(intent, login)])
  }

  function AfterAuthorize(cfg: Config, w: World, q: AuthRequest, nonce: string, state: string): World {
    match Authorize(cfg, q, w.now, nonce, state)
    case LoginStarted(intent, login) => AfterStart(w, McpPayload(intent), login)
    case _ => w
  }

  function AfterPlainLogin(w: World, state: string): World {
    w.(used := w.used + {state}, signed := w.signed + {LoginPayload(Login(state, "", w.now + OAUTH_STATE_MAX_AGE))})
  }

  function AfterCliLogin(cfg: Config, w: World, redirect: string, mode: string, cliState: string, nonce: string,
                         state: string): World {
    match CliLoginIntent(cfg, redirect, mode, cliState, nonce, w.now + OAUTH_STATE_MAX_AGE)
    case Some(c) => AfterStart(w, CliPayload(c), Login(state, nonce, w.now + OAUTH_STATE_MAX_AGE))
    case None => w
  }

  function Verified(w: World, r: CallbackRequest): CallbackRequest {
    r.(login := Signed(r.login, w.signed), mcp := Signed(r.mcp, w.signed), cli := Signed(r.cli, w.signed))
  }

  function AfterCallback(w: World, request: CallbackRequest, id: string): World {
    var r := Verified(w, request);
    match EndOf(r, w.now)
    case NoLogin => w
    case ToConsent(cookie) => AfterBegin(w, Begun(cookie, r.login.value, r.actor.value, w.now), id)
    case ToCli(cookie) => AfterCliBegin(w, CliBegun(cookie, r.login.value, r.actor.value, w.now), id)
    case ToWeb =>
      w.(sessions := w.sessions + {Session(r.actor.value, w.now + SESSION_LIFETIME)})
  }

  function PendingOf(b: Begun): Pending {
    Pending(AsMcp(b.cookie), b.actor)
  }

  function AfterBegin(w: World, b: Begun, id: string): World {
    w.(used := w.used + {id}, consents := Put(w.consents, id, PendingOf(b), b.at),
       sessions := w.sessions + {Session(b.actor, b.at + SESSION_LIFETIME)}, begun := w.begun[id := b])
  }

  function AfterCliBegin(w: World, b: CliBegun, code: string): World {
    w.(used := w.used + {code}, cliCodes := Minted(w.cliCodes, code, b.actor, AsCli(b.cookie).state, b.at),
       cliBegun := w.cliBegun[code := b])
  }

  function AfterConsent(w: World, request: ConsentRequest, code: string): World {
    var r := request.(session := Signed(request.session, w.sessions));
    var h := HandleConsent(w.consents, w.codes, r, code, w.now);
    var w := w.(consents := h.consents, codes := h.codes);
    if !h.answer.CodeIssued? then w
    else w.(used := w.used + {code}, allowed := w.allowed[code := Allowed(r.formId, r.session.value, w.now)])
  }

  function AfterToken(cfg: Config, w: World, r: TokenRequest): World {
    var h := HandleToken(cfg, w.codes, r, w.now);
    var w := w.(codes := h.codes);
    if h.actor.None? then w else w.(tokens := w.tokens + [Token(h.actor.value, r, w.now)])
  }

  function AfterCliToken(w: World, code: string, state: string, stored: bool): World {
    var actor := Redeemed(w.cliCodes, code, state, w.now);
    var w := w.(cliCodes := AfterRedeem(w.cliCodes, code, state, w.now));
    if actor.None? || !stored then w else w.(cliTokens := w.cliTokens + [CliToken(actor.value, code, state, w.now)])
  }

  function Next(cfg: Config, w: World, a: Action): World {
    match a
    case Wait(seconds) => w.(now := w.now + seconds)
    case AuthorizeStep(q, nonce, state) =>
      if Fresh(w, {nonce, state}) && nonce != state then AfterAuthorize(cfg, w, q, nonce, state) else w
    case PlainLogin(state) => if Fresh(w, {state}) then AfterPlainLogin(w, state) else w
    case CliLogin(redirect, mode, cliState, nonce, state) =>
      if Fresh(w, {nonce, state}) && nonce != state then AfterCliLogin(cfg, w, redirect, mode, cliState, nonce, state) else w
    case CallbackStep(r, id) => if Fresh(w, {id}) then AfterCallback(w, r, id) else w
    case ConsentStep(r, code) => if Fresh(w, {code}) then AfterConsent(w, r, code) else w
    case TokenStep(r) => AfterToken(cfg, w, r)
    case CliTokenStep(code, state, stored) => AfterCliToken(w, code, state, stored)
    case Restart => w.(consents := map[], codes := map[], cliCodes := map[])
  }

  function Run(cfg: Config, w: World, actions: seq<Action>): World
    decreases |actions|
  {
    if actions == [] then w else Run(cfg, Next(cfg, w, actions[0]), actions[1..])
  }

  function Start(now: int): World {
    World(now, {}, {}, {}, map[], map[], map[], map[], map[], map[], [], map[], [])
  }

  // ----- The invariant, part by part over the fields it is about

  /** Either cookie a start signed. */
  predicate OfStart(p: Payload, s: Started) {
    p == s.intent || p == LoginPayload(s.login)
  }

  predicate StartWell(cfg: Config, used: set<string>, nonce: string, s: Started) {
    && nonce in used && nonce != "" && NonceOf(s.intent) == nonce == s.login.nonce
    && !s.intent.LoginPayload?
    && (s.intent.McpPayload? ==> Accepted(cfg, s.intent.mcp))
    && (s.intent.CliPayload? ==> AcceptedCli(cfg, s.intent.cli))
  }

  /** A signed nonce belongs to one start, and only that start's two cookies carry it. */
  predicate SignedOk(cfg: Config, used: set<string>, signed: set<Payload>, starts: map<string, Started>) {
    && (forall n :: n in starts ==> StartWell(cfg, used, n, starts[n]))
    && (forall p :: p in signed && NonceOf(p) != "" ==> NonceOf(p) in starts && OfStart(p, starts[NonceOf(p)]))
  }

  /** Both cookies of the callback were signed by one start, and neither had expired. */
  predicate FromStart(cookie: Payload, login: Payload, starts: map<string, Started>, at: int) {
    var n := NonceOf(cookie);
    && n != "" && NonceOf(login) == n && n in starts && OfStart(cookie, starts[n]) && OfStart(login, starts[n])
    && at < AsLogin(cookie).exp && at < AsLogin(login).exp
  }

  predicate BegunWell(b: Begun, starts: map<string, Started>) {
    FromStart(b.cookie, b.login, starts, b.at)
  }

  predicate BegunOk(used: set<string>, starts: map<string, Started>, begun: map<string, Begun>) {
    forall id :: id in begun ==> id in used && BegunWell(begun[id], starts)
  }

  /** Pending consents are begun ones that no code was allowed on. */
  predicate ConsentsOk(consents: Entries<Pending>, begun: map<string, Begun>, allowed: map<string, Allowed>) {
    && (forall id :: id in consents ==> id in begun && consents[id] == Entry(PendingOf(begun[id]), begun[id].at + TTL))
    && (forall code :: code in allowed ==> allowed[code].consent !in consents)
  }

  /** An Allow is its consent's own actor's, in a live session, in time. */
  predicate AllowedWell(a: Allowed, begun: map<string, Begun>, sessions: set<Session>) {
    && a.consent in begun && a.session in sessions && a.session.actor == begun[a.consent].actor
    && a.at < a.session.exp && a.at <= begun[a.consent].at + TTL
  }

  predicate AllowedOk(used: set<string>, begun: map<string, Begun>, sessions: set<Session>, allowed: map<string, Allowed>) {
    && (forall code :: code in allowed ==> code in used && AllowedWell(allowed[code], begun, sessions))
    && (forall c, d :: c in allowed && d in allowed && allowed[c].consent == allowed[d].consent ==> c == d)
  }

  predicate CodeWell(code: string, e: Entry<Code>, begun: map<string, Begun>, allowed: map<string, Allowed>) {
    && code in allowed && allowed[code].consent in begun
    && e == Entry(CodeOf(PendingOf(begun[allowed[code].consent])), allowed[code].at + TTL)
  }

  /** Pending codes are allowed ones that no token was created from. */
  predicate CodesOk(codes: Entries<Code>, begun: map<string, Begun>, allowed: map<string, Allowed>, tokens: seq<Token>) {
    && (forall code :: code in codes ==> CodeWell(code, codes[code], begun, allowed))
    && (forall i :: 0 <= i < |tokens| ==> tokens[i].request.code !in codes)
  }

  /** The token's request agrees with the authorize its code goes back to, and came in time. */
  predicate TokenWell(cfg: Config, t: Token, begun: map<string, Begun>, allowed: map<string, Allowed>) {
    && t.request.code in allowed && allowed[t.request.code].consent in begun
    && var b := begun[allowed[t.request.code].consent];
    && t.actor == b.actor && t.request.client in cfg.clients && Matches(cfg, CodeOf(PendingOf(b)), t.request)
    && t.at <= allowed[t.request.code].at + TTL
  }

  predicate TokensOk(cfg: Config, begun: map<string, Begun>, allowed: map<string, Allowed>, tokens: seq<Token>) {
    && (forall i :: 0 <= i < |tokens| ==> TokenWell(cfg, tokens[i], begun, allowed))
    && (forall i, j :: 0 <= i < j < |tokens| ==> tokens[i].request.code != tokens[j].request.code)
  }

  predicate CliWell(b: CliBegun, starts: map<string, Started>) {
    FromStart(b.cookie, b.login, starts, b.at)
  }

  predicate CliCodeWell(e: CliCode, b: CliBegun) {
    e == CliCode(b.actor, AsCli(b.cookie).state, b.at + TTL)
  }

  predicate CliTokenWell(t: CliToken, b: CliBegun) {
    t.actor == b.actor && t.state == AsCli(b.cookie).state && t.at <= b.at + TTL
  }

  predicate CliBegunOk(used: set<string>, starts: map<string, Started>, cliBegun: map<string, CliBegun>) {
    forall code :: code in cliBegun ==> code in used && CliWell(cliBegun[code], starts)
  }

  /** The command-line codes: each from a nonce-matching callback, each good for one token. */
  predicate CliCodesOk(cliCodes: CliCodes, cliBegun: map<string, CliBegun>, cliTokens: seq<CliToken>) {
    && (forall code :: code in cliCodes ==> code in cliBegun && CliCodeWell(cliCodes[code], cliBegun[code]))
    && (forall i :: 0 <= i < |cliTokens| ==> cliTokens[i].code !in cliCodes)
  }

  predicate CliTokensOk(cliBegun: map<string, CliBegun>, cliTokens: seq<CliToken>) {
    && (forall i :: 0 <= i < |cliTokens| ==>
        cliTokens[i].code in cliBegun && CliTokenWell(cliTokens[i], cliBegun[cliTokens[i].code]))
    && (forall i, j :: 0 <= i < j < |cliTokens| ==> cliTokens[i].code != cliTokens[j].code)
  }

  predicate CliOk(used: set<string>, starts: map<string, Started>, cliCodes: CliCodes,
                  cliBegun: map<string, CliBegun>, cliTokens: seq<CliToken>) {
    && CliBegunOk(used, starts, cliBegun)
    && CliCodesOk(cliCodes, cliBegun, cliTokens)
    && CliTokensOk(cliBegun, cliTokens)
  }

  predicate Inv(cfg: Config, w: World) {
    && SignedOk(cfg, w.used, w.signed, w.starts)
    && BegunOk(w.used, w.starts, w.begun)
    && ConsentsOk(w.consents, w.begun, w.allowed)
    && AllowedOk(w.used, w.begun, w.sessions, w.allowed)
    && CodesOk(w.codes, w.begun, w.allowed, w.tokens)
    && TokensOk(cfg, w.begun, w.allowed, w.tokens)
    && CliOk(w.used, w.starts, w.cliCodes, w.cliBegun, w.cliTokens)
  }

  // ----- How each part survives a change

  predicate Extends<T, U(==)>(a: map<T, U>, b: map<T, U>) {
    forall k :: k in a ==> k in b && b[k] == a[k]
  }

  lemma SignedMore(cfg: Config, used: set<string>, used': set<string>, signed: set<Payload>, starts: map<string, Started>)
    requires SignedOk(cfg, used, signed, starts) && used <= used'
    ensures SignedOk(cfg, used', signed, starts)
  {
    hide Accepted, AcceptedCli, NonceOf, OfStart;
  }

  lemma PlainAdded(cfg: Config, used: set<string>, signed: set<Payload>, starts: map<string, Started>, p: Payload)
    requires SignedOk(cfg, used, signed, starts) && NonceOf(p) == ""
    ensures SignedOk(cfg, used, signed + {p}, starts)
  {
    hide StartWell, NonceOf, OfStart;
  }

  lemma StartAdded(cfg: Config, used: set<string>, signed: set<Payload>, starts: map<string, Started>, s: Started)
    requires SignedOk(cfg, used, signed, starts) && StartWell(cfg, used + {s.login.nonce}, s.login.nonce, s)
    requires s.login.nonce !in used
    ensures SignedOk(cfg, used + {s.login.nonce}, signed + {s.intent, LoginPayload(s.login)}, starts[s.login.nonce := s])
    ensures Extends(starts, starts[s.login.nonce := s])
  {
    var n := s.login.nonce;
    SignedMore(cfg, used, used + {n}, signed, starts);
    assert n !in starts;
    assert NonceOf(LoginPayload(s.login)) == n;
    hide Accepted, AcceptedCli;
  }

  lemma BegunMore(used: set<string>, used': set<string>, starts: map<string, Started>, starts': map<string, Started>,
                  begun: map<string, Begun>)
    requires BegunOk(used, starts, begun) && used <= used' && Extends(starts, starts')
    ensures BegunOk(used', starts', begun)
  {
    hide NonceOf, OfStart, AsLogin;
  }

  lemma BegunAdded(used: set<string>, starts: map<string, Started>, begun: map<string, Begun>, id: string, b: Begun)
    requires BegunOk(used, starts, begun) && BegunWell(b, starts)
    ensures BegunOk(used + {id}, starts, begun[id := b])
  {
    hide BegunWell;
  }

  lemma AllowedMore(used: set<string>, used': set<string>, begun: map<string, Begun>, begun': map<string, Begun>,
                    sessions: set<Session>, sessions': set<Session>, allowed: map<string, Allowed>)
    requires AllowedOk(used, begun, sessions, allowed) && used <= used' && Extends(begun, begun') && sessions <= sessions'
    ensures AllowedOk(used', begun', sessions', allowed)
  {
  }

  lemma AllowedAdded(used: set<string>, begun: map<string, Begun>, sessions: set<Session>, allowed: map<string, Allowed>,
                     code: string, a: Allowed)
    requires AllowedOk(used, begun, sessions, allowed) && AllowedWell(a, begun, sessions)
    requires forall c :: c in allowed ==> allowed[c].consent != a.consent
    ensures AllowedOk(used + {code}, begun, sessions, allowed[code := a])
  {
    hide AllowedWell;
  }

  lemma ConsentAdded(used: set<string>, sessions: set<Session>, consents: Entries<Pending>, begun: map<string, Begun>,
                     allowed: map<string, Allowed>, id: string, b: Begun)
    requires ConsentsOk(consents, begun, allowed) && AllowedOk(used, begun, sessions, allowed) && id !in begun
    ensures ConsentsOk(Put(consents, id, PendingOf(b), b.at), begun[id := b], allowed)
  {
    hide PendingOf;
    forall code | code in allowed
      ensures allowed[code].consent != id
    {
      assert AllowedWell(allowed[code], begun, sessions);
    }
  }

  lemma ConsentSpent(consents: Entries<Pending>, begun: map<string, Begun>, allowed: map<string, Allowed>, id: string)
    requires ConsentsOk(consents, begun, allowed)
    ensures ConsentsOk(Spent(consents, id), begun, allowed)
  {
    hide PendingOf;
  }

  lemma ConsentAllowed(consents: Entries<Pending>, begun: map<string, Begun>, allowed: map<string, Allowed>,
                       code: string, a: Allowed)
    requires ConsentsOk(consents, begun, allowed) && a.consent !in consents
    ensures ConsentsOk(consents, begun, allowed[code := a])
  {
    hide PendingOf;
  }

  lemma CodesMore(codes: Entries<Code>, begun: map<string, Begun>, begun': map<string, Begun>,
                  allowed: map<string, Allowed>, tokens: seq<Token>)
    requires CodesOk(codes, begun, allowed, tokens) && Extends(begun, begun')
    ensures CodesOk(codes, begun', allowed, tokens)
  {
    hide CodeOf, PendingOf;
    forall code | code in codes
      ensures CodeWell(code, codes[code], begun', allowed)
    {
      assert CodeWell(code, codes[code], begun, allowed);
    }
  }

  lemma CodeAdded(codes: Entries<Code>, begun: map<string, Begun>, allowed: map<string, Allowed>, tokens: seq<Token>,
                  code: string, a: Allowed)
    requires CodesOk(codes, begun, allowed, tokens) && code !in allowed && a.consent in begun
    requires forall i :: 0 <= i < |tokens| ==> tokens[i].request.code in allowed
    ensures CodesOk(Put(codes, code, CodeOf(PendingOf(begun[a.consent])), a.at), begun, allowed[code := a], tokens)
  {
    hide CodeOf, PendingOf;
    var codes' := Put(codes, code, CodeOf(PendingOf(begun[a.consent])), a.at);
    forall c | c in codes'
      ensures CodeWell(c, codes'[c], begun, allowed[code := a])
    {
      if c != code { assert CodeWell(c, codes[c], begun, allowed); }
    }
  }

  lemma CodeSpent(codes: Entries<Code>, begun: map<string, Begun>, allowed: map<string, Allowed>, tokens: seq<Token>,
                  code: string)
    requires CodesOk(codes, begun, allowed, tokens)
    ensures CodesOk(Spent(codes, code), begun, allowed, tokens)
  {
    hide CodeWell;
  }

  lemma TokensMore(cfg: Config, begun: map<string, Begun>, begun': map<string, Begun>, allowed: map<string, Allowed>,
                   allowed': map<string, Allowed>, tokens: seq<Token>)
    requires TokensOk(cfg, begun, allowed, tokens) && Extends(begun, begun') && Extends(allowed, allowed')
    ensures TokensOk(cfg, begun', allowed', tokens)
  {
    hide Matches, CodeOf;
    forall i | 0 <= i < |tokens|
      ensures TokenWell(cfg, tokens[i], begun', allowed')
    {
      assert TokenWell(cfg, tokens[i], begun, allowed);
    }
  }

  lemma CliMore(used: set<string>, used': set<string>, starts: map<string, Started>, starts': map<string, Started>,
                cliBegun: map<string, CliBegun>)
    requires CliBegunOk(used, starts, cliBegun) && used <= used' && Extends(starts, starts')
    ensures CliBegunOk(used', starts', cliBegun)
  {
    hide NonceOf, OfStart, AsLogin;
  }

  lemma CliAdded(used: set<string>, starts: map<string, Started>, cliCodes: CliCodes,
                 cliBegun: map<string, CliBegun>, cliTokens: seq<CliToken>, code: string, b: CliBegun)
    requires CliOk(used, starts, cliCodes, cliBegun, cliTokens) && code !in used && CliWell(b, starts)
    ensures CliOk(used + {code}, starts, Minted(cliCodes, code, b.actor, AsCli(b.cookie).state, b.at),
                  cliBegun[code := b], cliTokens)
  {
    hide CliWell, CliTokenWell, AsCli;
    assert code !in cliBegun;
  }

  // ----- Every step keeps the invariant

  /** Signing more cookies and drawing more randomness disturbs nothing recorded. */
  lemma SignedKeeps(cfg: Config, w: World, w': World)
    requires Inv(cfg, w) && SignedOk(cfg, w'.used, w'.signed, w'.starts)
    requires w.used <= w'.used && Extends(w.starts, w'.starts) && w.sessions <= w'.sessions
    requires w' == w.(now := w'.now, used := w'.used, signed := w'.signed, starts := w'.starts, sessions := w'.sessions)
    ensures Inv(cfg, w')
  {
    assert Extends(w.begun, w.begun);
    hide SignedOk, BegunOk, AllowedOk, ConsentsOk, CodesOk, TokensOk, CliBegunOk, CliCodesOk, CliTokensOk, Extends;
    BegunMore(w.used, w'.used, w.starts, w'.starts, w.begun);
    AllowedMore(w.used, w'.used, w.begun, w.begun, w.sessions, w'.sessions, w.allowed);
    CliMore(w.used, w'.used, w.starts, w'.starts, w.cliBegun);
  }

  lemma StartKeeps(cfg: Config, w: World, intent: Payload, login: Login)
    requires Inv(cfg, w) && login.nonce !in w.used
    requires StartWell(cfg, w.used + {login.nonce}, login.nonce, Started(intent, login))
    ensures Inv(cfg, AfterStart(w, intent, login))
  {
    hide SignedOk, BegunOk, AllowedOk, ConsentsOk, CodesOk, TokensOk, CliOk, StartWell, Extends;
    var s, w' := Started(intent, login), AfterStart(w, intent, login);
    StartAdded(cfg, w.used, w.signed, w.starts, s);
    SignedMore(cfg, w.used + {login.nonce}, w'.used, w'.signed, w'.starts);
    SignedKeeps(cfg, w, w');
  }

  lemma AuthorizeKeeps(cfg: Config, w: World, q: AuthRequest, nonce: string, state: string)
    requires Inv(cfg, w) && Fresh(w, {nonce, state})
    ensures Inv(cfg, AfterAuthorize(cfg, w, q, nonce, state))
  {
    hide Inv, Accepted, Authorize, AfterStart;
    AuthorizeRedirectsOnlyRegistered(cfg, q, w.now, nonce, state);
    var r := Authorize(cfg, q, w.now, nonce, state);
    if r.LoginStarted? {
      FreshEach(w, nonce, state);
      StartKeeps(cfg, w, McpPayload(r.intent), r.login);
    }
  }

  lemma FreshEach(w: World, a: string, b: string)
    requires Fresh(w, {a, b})
    ensures a !in w.used && b !in w.used && a != "" && b != ""
  {
    assert a in {a, b} && b in {a, b};
  }

  lemma CliLoginKeeps(cfg: Config, w: World, redirect: string, mode: string, cliState: string,
                      nonce: string, state: string)
    requires Inv(cfg, w) && Fresh(w, {nonce, state})
    ensures Inv(cfg, AfterCliLogin(cfg, w, redirect, mode, cliState, nonce, state))
  {
    hide Inv, AfterStart;
    var c := CliLoginIntent(cfg, redirect, mode, cliState, nonce, w.now + OAUTH_STATE_MAX_AGE);
    if c.Some? {
      FreshEach(w, nonce, state);
      StartKeeps(cfg, w, CliPayload(c.value), Login(state, nonce, w.now + OAUTH_STATE_MAX_AGE));
    }
  }

  lemma PlainLoginKeeps(cfg: Config, w: World, state: string)
    requires Inv(cfg, w)
    ensures Inv(cfg, AfterPlainLogin(w, state))
  {
    assert Extends(w.starts, w.starts);
    hide SignedOk, BegunOk, AllowedOk, ConsentsOk, CodesOk, TokensOk, CliOk, Extends;
    var p := LoginPayload(Login(state, "", w.now + OAUTH_STATE_MAX_AGE));
    var w' := AfterPlainLogin(w, state);
    PlainAdded(cfg, w.used, w.signed, w.starts, p);
    SignedMore(cfg, w.used, w'.used, w.signed + {p}, w.starts);
    SignedKeeps(cfg, w, w');
  }

  lemma BeginKeeps(cfg: Config, w: World, b: Begun, id: string)
    requires Inv(cfg, w) && id !in w.used && BegunWell(b, w.starts)
    ensures Inv(cfg, AfterBegin(w, b, id))
  {
    assert id !in w.begun && Extends(w.begun, w.begun[id := b]) && Extends(w.allowed, w.allowed) && Extends(w.starts, w.starts);
    hide Extends;
    hide SignedOk, BegunOk, AllowedOk, ConsentsOk, CodesOk, TokensOk, CliBegunOk, CliCodesOk, CliTokensOk, Put, PendingOf, BegunWell;
    var w' := AfterBegin(w, b, id);
    SignedMore(cfg, w.used, w'.used, w.signed, w.starts);
    BegunAdded(w.used, w.starts, w.begun, id, b);
    ConsentAdded(w.used, w.sessions, w.consents, w.begun, w.allowed, id, b);
    AllowedMore(w.used, w'.used, w.begun, w'.begun, w.sessions, w'.sessions, w.allowed);
    CodesMore(w.codes, w.begun, w'.begun, w.allowed, w.tokens);
    TokensMore(cfg, w.begun, w'.begun, w.allowed, w.allowed, w.tokens);
    CliMore(w.used, w'.used, w.starts, w.starts, w.cliBegun);
  }

  lemma CliBeginKeeps(cfg: Config, w: World, b: CliBegun, code: string)
    requires Inv(cfg, w) && code !in w.used && CliWell(b, w.starts)
    ensures Inv(cfg, AfterCliBegin(w, b, code))
  {
    assert Extends(w.starts, w.starts) && Extends(w.begun, w.begun);
    hide SignedOk, BegunOk, AllowedOk, ConsentsOk, CodesOk, TokensOk, CliOk, CliWell, Extends;
    var w' := AfterCliBegin(w, b, code);
    SignedMore(cfg, w.used, w'.used, w.signed, w.starts);
    BegunMore(w.used, w'.used, w.starts, w.starts, w.begun);
    AllowedMore(w.used, w'.used, w.begun, w.begun, w.sessions, w.sessions, w.allowed);
    CliAdded(w.used, w.starts, w.cliCodes, w.cliBegun, w.cliTokens, code, b);
  }

  /** Whatever signed payloads the cookies hold: a callback that ends in a consent or a code was presented
      with two unexpired cookies of one start. */
  lemma EndsWell(cfg: Config, w: World, request: CallbackRequest)
    requires SignedOk(cfg, w.used, w.signed, w.starts)
    ensures var r := Verified(w, request);
      match EndOf(r, w.now)
      case ToConsent(p) => r.login.Some? && r.actor.Some? && BegunWell(Begun(p, r.login.value, r.actor.value, w.now), w.starts)
      case ToCli(p) => r.login.Some? && r.actor.Some? && CliWell(CliBegun(p, r.login.value, r.actor.value, w.now), w.starts)
      case _ => true
  {
    hide StartWell, OfStart;
    assert forall p :: AsMcp(p).nonce == AsCli(p).nonce == AsLogin(p).nonce && AsMcp(p).exp == AsCli(p).exp == AsLogin(p).exp;
  }

  lemma CallbackKeeps(cfg: Config, w: World, request: CallbackRequest, id: string)
    requires Inv(cfg, w) && Fresh(w, {id})
    ensures Inv(cfg, AfterCallback(w, request, id))
  {
    assert Extends(w.starts, w.starts);
    hide SignedOk, BegunOk, AllowedOk, ConsentsOk, CodesOk, TokensOk, CliOk, AfterBegin, AfterCliBegin, BegunWell, CliWell, EndOf, Extends;
    var r := Verified(w, request);
    FreshEach(w, id, id);
    assert {id, id} == {id};
    EndsWell(cfg, w, request);
    match EndOf(r, w.now)
    case NoLogin =>
    case ToConsent(p) => BeginKeeps(cfg, w, Begun(p, r.login.value, r.actor.value, w.now), id);
    case ToCli(p) => CliBeginKeeps(cfg, w, CliBegun(p, r.login.value, r.actor.value, w.now), id);
    case ToWeb => SignedKeeps(cfg, w, AfterCallback(w, request, id));
  }

  function AfterAllow(w: World, a: Allowed, p: Pending, code: string): World {
    w.(used := w.used + {code}, codes := Put(w.codes, code, CodeOf(p), a.at), allowed := w.allowed[code := a])
  }

  lemma AllowKeeps(cfg: Config, w: World, a: Allowed, code: string)
    requires Inv(cfg, w) && code !in w.used && AllowedWell(a, w.begun, w.sessions)
    requires a.consent !in w.consents && forall c :: c in w.allowed ==> w.allowed[c].consent != a.consent
    ensures Inv(cfg, AfterAllow(w, a, PendingOf(w.begun[a.consent]), code))
  {
    CodeIsNew(cfg, w, code);
    TokensAllowed(cfg, w);
    assert a.consent in w.begun && Extends(w.begun, w.begun) && Extends(w.allowed, w.allowed[code := a]);
    assert Extends(w.starts, w.starts);
    hide SignedOk, BegunOk, AllowedOk, ConsentsOk, CodesOk, TokensOk, CliBegunOk, CliCodesOk, CliTokensOk, Put, CodeOf, PendingOf,
      AllowedWell, Extends;
    var w' := AfterAllow(w, a, PendingOf(w.begun[a.consent]), code);
    SignedMore(cfg, w.used, w'.used, w.signed, w.starts);
    BegunMore(w.used, w'.used, w.starts, w.starts, w.begun);
    AllowedAdded(w.used, w.begun, w.sessions, w.allowed, code, a);
    ConsentAllowed(w.consents, w.begun, w.allowed, code, a);
    CodeAdded(w.codes, w.begun, w.allowed, w.tokens, code, a);
    TokensMore(cfg, w.begun, w.begun, w.allowed, w'.allowed, w.tokens);
    CliMore(w.used, w'.used, w.starts, w.starts, w.cliBegun);
  }

  lemma CodeIsNew(cfg: Config, w: World, code: string)
    requires AllowedOk(w.used, w.begun, w.sessions, w.allowed) && code !in w.used
    ensures code !in w.allowed
  {
  }

  lemma TokensAllowed(cfg: Config, w: World)
    requires TokensOk(cfg, w.begun, w.allowed, w.tokens)
    ensures forall i :: 0 <= i < |w.tokens| ==> w.tokens[i].request.code in w.allowed
  {
    forall i | 0 <= i < |w.tokens|
      ensures w.tokens[i].request.code in w.allowed
    {
      assert TokenWell(cfg, w.tokens[i], w.begun, w.allowed);
    }
  }

  lemma ConsentKeeps(cfg: Config, w: World, request: ConsentRequest, code: string)
    requires Inv(cfg, w) && Fresh(w, {code})
    ensures Inv(cfg, AfterConsent(w, request, code))
  {
    hide SignedOk, BegunOk, ConsentsOk, AllowedOk, CodesOk, TokensOk, CliOk, Put, CodeOf, PendingOf, AllowedWell;
    var r := request.(session := Signed(request.session, w.sessions));
    if MayConsent(r, w.now) {
      ConsentSpent(w.consents, w.begun, w.allowed, r.formId);
      var w1 := w.(consents := Spent(w.consents, r.formId));
      if Consented(w.consents, r, w.now).Some? && r.allow {
        FreshEach(w, code, code);
        assert {code, code} == {code};
        AllowFits(w.consents, w.begun, w.allowed, w.sessions, r, w.now);
        AllowKeeps(cfg, w1, Allowed(r.formId, r.session.value, w.now), code);
      }
    }
  }

  lemma AllowFits(consents: Entries<Pending>, begun: map<string, Begun>, allowed: map<string, Allowed>,
                  sessions: set<Session>, r: ConsentRequest, now: int)
    requires ConsentsOk(consents, begun, allowed) && MayConsent(r, now) && r.session.value in sessions
    requires Consented(consents, r, now).Some?
    ensures r.formId in begun && Consented(consents, r, now).value == PendingOf(begun[r.formId])
    ensures AllowedWell(Allowed(r.formId, r.session.value, now), begun, sessions)
    ensures r.formId !in Spent(consents, r.formId)
    ensures forall c :: c in allowed ==> allowed[c].consent != r.formId
  {
  }

  lemma TokenKeeps(cfg: Config, w: World, r: TokenRequest)
    requires Inv(cfg, w)
    ensures Inv(cfg, AfterToken(cfg, w, r))
  {
    hide SignedOk, BegunOk, ConsentsOk, AllowedOk, CliOk, Matches, CodeOf, IsResource;
    CodeSpent(w.codes, w.begun, w.allowed, w.tokens, r.code);
    var c := Found(w.codes, r.code, w.now);
    if MayRedeem(cfg, r) && c.Some? && Matches(cfg, c.value, r) && r.stored {
      TokenAdded(cfg, w.codes, w.begun, w.allowed, w.tokens, r, w.now);
    }
  }

  lemma TokenAdded(cfg: Config, codes: Entries<Code>, begun: map<string, Begun>, allowed: map<string, Allowed>,
                   tokens: seq<Token>, r: TokenRequest, now: int)
    requires CodesOk(codes, begun, allowed, tokens) && TokensOk(cfg, begun, allowed, tokens)
    requires Found(codes, r.code, now).Some? && Matches(cfg, Found(codes, r.code, now).value, r) && r.client in cfg.clients
    ensures var tokens' := tokens + [Token(Found(codes, r.code, now).value.actor, r, now)];
      CodesOk(Spent(codes, r.code), begun, allowed, tokens') && TokensOk(cfg, begun, allowed, tokens')
  {
    hide Matches;
    assert CodeWell(r.code, codes[r.code], begun, allowed);
    var t := Token(Found(codes, r.code, now).value.actor, r, now);
    assert TokenWell(cfg, t, begun, allowed);
    hide CodeWell, TokenWell;
    assert forall i :: 0 <= i < |tokens| ==> tokens[i].request.code != r.code;
  }

  lemma CliTokenKeeps(cfg: Config, w: World, code: string, state: string, stored: bool)
    requires Inv(cfg, w)
    ensures Inv(cfg, AfterCliToken(w, code, state, stored))
  {
    hide SignedOk, BegunOk, ConsentsOk, AllowedOk, CodesOk, TokensOk, CliBegunOk;
  }

  lemma RestartKeeps(cfg: Config, w: World)
    requires Inv(cfg, w)
    ensures Inv(cfg, Next(cfg, w, Restart))
  {
    hide SignedOk, BegunOk, AllowedOk, TokensOk, CliBegunOk, CliTokensOk;
  }

  lemma NextKeeps(cfg: Config, w: World, a: Action)
    requires Inv(cfg, w)
    ensures Inv(cfg, Next(cfg, w, a))
  {
    hide SignedOk, BegunOk, AllowedOk, ConsentsOk, CodesOk, TokensOk, CliOk,
      AfterAuthorize, AfterPlainLogin, AfterCliLogin, AfterCallback, AfterConsent, AfterToken, AfterCliToken, Fresh;
    match a
    case AuthorizeStep(q, nonce, state) => if Fresh(w, {nonce, state}) { AuthorizeKeeps(cfg, w, q, nonce, state); }
    case PlainLogin(state) => if Fresh(w, {state}) { PlainLoginKeeps(cfg, w, state); }
    case CliLogin(redirect, mode, cliState, nonce, state) =>
      if Fresh(w, {nonce, state}) { CliLoginKeeps(cfg, w, redirect, mode, cliState, nonce, state); }
    case CallbackStep(r, id) => if Fresh(w, {id}) { CallbackKeeps(cfg, w, r, id); }
    case ConsentStep(r, code) => if Fresh(w, {code}) { ConsentKeeps(cfg, w, r, code); }
    case TokenStep(r) => TokenKeeps(cfg, w, r);
    case CliTokenStep(code, state, stored) => CliTokenKeeps(cfg, w, code, state, stored);
    case Restart => RestartKeeps(cfg, w);
    case Wait(_) =>
  }

  lemma {:induction false} RunKeeps(cfg: Config, w: World, actions: seq<Action>)
    requires Inv(cfg, w)
    ensures Inv(cfg, Run(cfg, w, actions))
    decreases |actions|
  {
    hide Inv, Next;
    if actions != [] {
      NextKeeps(cfg, w, actions[0]);
      RunKeeps(cfg, Next(cfg, w, actions[0]), actions[1..]);
    }
  }

  // ----- Where a token comes from

  /** A token goes back, through one Allow and one consent, to an accepted authorize request. */
  predicate Traced(cfg: Config, w: World, t: Token) {
    && t.request.code in w.allowed
    && var a := w.allowed[t.request.code];
    && a.consent in w.begun
    && var b := w.begun[a.consent];
    // the consent's cookie is the intent an accepted authorize signed, and the login's is of the same start
    && b.cookie.McpPayload?
    && var i := b.cookie.mcp;
    && Accepted(cfg, i) && i.nonce != "" && i.nonce in w.starts
    && b.cookie == w.starts[i.nonce].intent && OfStart(b.login, w.starts[i.nonce])
    // the same actor logged in, allowed and got the token, each step in time
    && t.actor == b.actor == a.session.actor && a.session in w.sessions
    && b.at < i.exp && a.at < a.session.exp && a.at <= b.at + TTL && t.at <= a.at + TTL
    // the token request names the authorize's client and redirect, and proves its challenge
    && t.request.client == i.client && t.request.redirect == i.redirect && cfg.hash(t.request.verifier) == i.challenge
    && (TrimSlashes(t.request.resource) == "" || i.resource == "" || TrimSlashes(t.request.resource) == TrimSlashes(i.resource))
  }

  /** Over every run, each token is traced, and no code and no consent has yielded two. That the empty id names
      no registered client is what keeps out consents begun by a cookie that was not signed as an MCP intent. */
  lemma TokensTraced(cfg: Config, now: int, actions: seq<Action>, i: nat, j: nat)
    requires "" !in cfg.clients
    requires i < |Run(cfg, Start(now), actions).tokens| && j < |Run(cfg, Start(now), actions).tokens|
    ensures var w := Run(cfg, Start(now), actions);
      && Traced(cfg, w, w.tokens[i]) && Traced(cfg, w, w.tokens[j])
      && (i != j ==>
          && w.tokens[i].request.code != w.tokens[j].request.code
          && w.allowed[w.tokens[i].request.code].consent != w.allowed[w.tokens[j].request.code].consent)
  {
    hide Traced, Inv, Run;
    var w := Run(cfg, Start(now), actions);
    ReachedKeeps(cfg, now, actions);
    TokenTraced(cfg, w, i);
    TokenTraced(cfg, w, j);
    if i != j { TokensApart(cfg, w, i, j); }
  }

  lemma ReachedKeeps(cfg: Config, now: int, actions: seq<Action>)
    ensures Inv(cfg, Run(cfg, Start(now), actions))
  {
    RunKeeps(cfg, Start(now), actions);
  }

  lemma TokensApart(cfg: Config, w: World, i: nat, j: nat)
    requires Inv(cfg, w) && i < |w.tokens| && j < |w.tokens| && i != j
    ensures w.tokens[i].request.code in w.allowed && w.tokens[j].request.code in w.allowed
    ensures w.tokens[i].request.code != w.tokens[j].request.code
    ensures w.allowed[w.tokens[i].request.code].consent != w.allowed[w.tokens[j].request.code].consent
  {
    TokensAllowed(cfg, w);
    hide SignedOk, BegunOk, ConsentsOk, CodesOk, CliOk, TokenWell, AllowedWell;
  }

  /** What a consent's or a code's cookie is, told from its decoded fields. */
  lemma CookieToldExactly(cfg: Config, w: World, cookie: Payload, login: Payload, at: int)
    requires SignedOk(cfg, w.used, w.signed, w.starts) && FromStart(cookie, login, w.starts, at) && "" !in cfg.clients
    ensures cookie.McpPayload? <==> AsMcp(cookie).client != ""
    ensures cookie.CliPayload? <==> AsCli(cookie).mode != ""
    ensures cookie.McpPayload? ==> cookie == w.starts[NonceOf(cookie)].intent && Accepted(cfg, cookie.mcp)
    ensures cookie.CliPayload? ==> cookie == w.starts[NonceOf(cookie)].intent && AcceptedCli(cfg, cookie.cli)
  {
    hide IsResource;
    assert StartWell(cfg, w.used, NonceOf(cookie), w.starts[NonceOf(cookie)]);
  }

  lemma TokenTraced(cfg: Config, w: World, i: nat)
    requires Inv(cfg, w) && i < |w.tokens| && "" !in cfg.clients
    ensures Traced(cfg, w, w.tokens[i])
  {
    hide Accepted, AcceptedCli, ConsentsOk, CodesOk, CliOk, SignedOk;
    var t := w.tokens[i];
    assert TokenWell(cfg, t, w.begun, w.allowed);
    assert AllowedWell(w.allowed[t.request.code], w.begun, w.sessions);
    var b := w.begun[w.allowed[t.request.code].consent];
    assert BegunWell(b, w.starts);
    CookieToldExactly(cfg, w, b.cookie, b.login, b.at);
  }

  /** Over every run, a pending consent was begun by the intent of an accepted authorize exactly when it names
      a client. */
  lemma ConsentGenuineExactly(cfg: Config, now: int, actions: seq<Action>, id: string)
    requires "" !in cfg.clients && id in Run(cfg, Start(now), actions).consents
    ensures var w := Run(cfg, Start(now), actions);
      && id in w.begun && w.consents[id].v == PendingOf(w.begun[id])
      && (w.begun[id].cookie.McpPayload? <==> w.consents[id].v.intent.client != "")
      && (w.begun[id].cookie.McpPayload? ==> Accepted(cfg, w.consents[id].v.intent))
  {
    hide Accepted, AcceptedCli, CodesOk, CliOk, SignedOk, Run;
    var w := Run(cfg, Start(now), actions);
    ReachedKeeps(cfg, now, actions);
    var b := w.begun[id];
    assert BegunWell(b, w.starts);
    CookieToldExactly(cfg, w, b.cookie, b.login, b.at);
  }

  /** A command-line token goes back to one callback, presented with two unexpired cookies of one start, and
      was asked for with the state its cookie decodes to; no code has yielded two. The cookie was signed by a
      command-line login exactly when it decodes to a mode, which the code does not require. */
  lemma CliTokensTraced(cfg: Config, now: int, actions: seq<Action>, i: nat, j: nat)
    requires "" !in cfg.clients
    requires i < |Run(cfg, Start(now), actions).cliTokens| && j < |Run(cfg, Start(now), actions).cliTokens|
    ensures var w := Run(cfg, Start(now), actions);
      var t := w.cliTokens[i];
      && t.code in w.cliBegun
      && var b := w.cliBegun[t.code];
      && CliWell(b, w.starts) && CliTokenWell(t, b)
      && (b.cookie.CliPayload? <==> AsCli(b.cookie).mode != "")
      && (b.cookie.CliPayload? ==> b.cookie == w.starts[NonceOf(b.cookie)].intent && AcceptedCli(cfg, b.cookie.cli))
      && (i != j ==> t.code != w.cliTokens[j].code)
  {
    hide SignedOk, BegunOk, AllowedOk, ConsentsOk, CodesOk, TokensOk, CliCodesOk, FromStart, CliTokenWell, Run, AcceptedCli;
    ReachedKeeps(cfg, now, actions);
    var w := Run(cfg, Start(now), actions);
    assert i != j ==> w.cliTokens[i].code != w.cliTokens[j].code;
    var b := w.cliBegun[w.cliTokens[i].code];
    assert CliWell(b, w.starts);
    CookieToldExactly(cfg, w, b.cookie, b.login, b.at);
  }

  // ----- One cookie presented as another

  function LoginOf(state: string, nonce: string, now: int): Payload {
    LoginPayload(Login(state, nonce, now + OAUTH_STATE_MAX_AGE))
  }

  /** An authorize, then its login cookie presented both as itself and as the command-line intent, and no MCP
      intent: the callback issues a command-line code for the login's own state. */
  function LoginAsCli(q: AuthRequest, nonce: string, state: string, actor: string, code: string, now: int): seq<Action> {
    var login := LoginOf(state, nonce, now);
    [AuthorizeStep(q, nonce, state),
     CallbackStep(CallbackRequest(Some(login), None, Some(login), state, Some(actor)), code),
     CliTokenStep(code, state, true)]
  }

  /** It yields a command-line token, although no command-line login was ever started. */
  lemma CliTokenWithoutCliLogin(cfg: Config, q: AuthRequest, nonce: string, state: string, actor: string, code: string, now: int)
    requires Authorize(cfg, q, now, nonce, state).LoginStarted?
    requires nonce != state && code != nonce && code != state && nonce != "" && state != "" && code != ""
    ensures var w := Run(cfg, Start(now), LoginAsCli(q, nonce, state, actor, code, now));
      && w.cliTokens == [CliToken(actor, code, state, now)]
      && forall n :: n in w.starts ==> !w.starts[n].intent.CliPayload?
  {
    var actions, login := LoginAsCli(q, nonce, state, actor, code, now), LoginOf(state, nonce, now);
    AuthorizedIntent(cfg, q, now, nonce, state);
    hide Authorize, AfterToken, AfterConsent, AfterBegin, AfterCliLogin, AfterPlainLogin;
    var w1 := Next(cfg, Start(now), actions[0]);
    assert w1.now == now && w1.used == {nonce, state} && login in w1.signed && w1.cliTokens == [];
    assert w1.starts.Keys == {nonce} && w1.starts[nonce].intent.McpPayload?;
    hide AfterAuthorize;
    var w2 := Next(cfg, w1, actions[1]);
    assert EndOf(Verified(w1, actions[1].callback), now) == ToCli(login);
    assert w2 == AfterCliBegin(w1, CliBegun(login, login, actor, now), code);
    assert code in w2.cliCodes && w2.cliCodes[code] == CliCode(actor, state, now + TTL);
    hide AfterCallback;
    var w3 := Next(cfg, w2, actions[2]);
    assert w3.cliTokens == [CliToken(actor, code, state, now)];
    hide Next;
    RunCons(cfg, Start(now), actions);
    RunCons(cfg, w1, actions[1..]);
    RunCons(cfg, w2, actions[2..]);
    assert actions[1..][1..] == actions[2..] && actions[2..][1..] == [];
  }

  /** The same cookie presented as the MCP intent begins a consent, for the client with the empty id. */
  lemma ConsentWithoutClient(w: World, state: string, nonce: string, actor: string, id: string)
    requires LoginOf(state, nonce, w.now) in w.signed && nonce != ""
    ensures var login := LoginOf(state, nonce, w.now);
      var w' := AfterCallback(w, CallbackRequest(Some(login), Some(login), None, state, Some(actor)), id);
      && w'.consents == Put(w.consents, id, Pending(AsMcp(login), actor), w.now)
      && w'.consents[id].v.intent.client == ""
  {
    var login := LoginOf(state, nonce, w.now);
    var r := CallbackRequest(Some(login), Some(login), None, state, Some(actor));
    assert Verified(w, r) == r && EndOf(r, w.now) == ToConsent(login);
  }

  lemma AuthorizedIntent(cfg: Config, q: AuthRequest, now: int, nonce: string, state: string)
    requires Authorize(cfg, q, now, nonce, state).LoginStarted?
    ensures Authorize(cfg, q, now, nonce, state) == LoginStarted(
      Intent(q.client, q.redirect, q.challenge, q.resource, q.state, nonce, now + OAUTH_STATE_MAX_AGE),
      Login(state, nonce, now + OAUTH_STATE_MAX_AGE))
  {
    hide IsResource, Registered;
  }

  lemma RunCons(cfg: Config, w: World, actions: seq<Action>)
    requires actions != []
    ensures Run(cfg, w, actions) == Run(cfg, Next(cfg, w, actions[0]), actions[1..])
  {
  }

  // ----- The flow as its users mean it, whatever else happens in between

  /** Nobody answers this consent or redeems this code, and the server keeps running. */
  predicate LeavesConsent(actions: seq<Action>, id: string) {
    forall i :: 0 <= i < |actions| ==> !actions[i].Restart? && !(actions[i].ConsentStep? && actions[i].consent.formId == id)
  }

  predicate LeavesCode(actions: seq<Action>, code: string) {
    forall i :: 0 <= i < |actions| ==> !actions[i].Restart? && !(actions[i].TokenStep? && actions[i].token.code == code)
  }

  /** What never shrinks. */
  predicate Later(w: World, w': World) {
    w.now <= w'.now && w.used <= w'.used && w.signed <= w'.signed && w.sessions <= w'.sessions
  }

  lemma {:induction false} RunsLater(cfg: Config, w: World, actions: seq<Action>)
    ensures Later(w, Run(cfg, w, actions))
    decreases |actions|
  {
    if actions != [] {
      StepsLater(cfg, w, actions[0]);
      hide Next;
      RunsLater(cfg, Next(cfg, w, actions[0]), actions[1..]);
    }
  }

  /** The unexpired entries stay, those under an excepted id aside. */
  ghost predicate Stay<T>(m: Entries<T>, m': Entries<T>, now: int, except: set<string>) {
    forall k :: k in m && k !in except && !Expired(m[k], now) ==> k in m' && m'[k] == m[k]
  }

  ghost predicate Quiet(w: World, w': World, consents: set<string>, codes: set<string>) {
    Later(w, w') && Stay(w.consents, w'.consents, w.now, consents) && Stay(w.codes, w'.codes, w.now, codes)
  }

  lemma StoresSame(w: World, w': World)
    requires Later(w, w') && w'.consents == w.consents && w'.codes == w.codes
    ensures Quiet(w, w', {}, {})
  {
  }

  lemma StartQuiet(w: World, intent: Payload, login: Login)
    ensures Quiet(w, AfterStart(w, intent, login), {}, {})
  {
    StoresSame(w, AfterStart(w, intent, login));
  }

  lemma LoginsQuiet(cfg: Config, w: World, a: Action)
    requires a.AuthorizeStep? || a.CliLogin?
    ensures Quiet(w, Next(cfg, w, a), {}, {})
  {
    StoresSame(w, w);
    hide Authorize, CliLoginIntent, Fresh, Quiet, AfterStart;
    match a
    case AuthorizeStep(q, nonce, state) =>
      var r := Authorize(cfg, q, w.now, nonce, state);
      if r.LoginStarted? { StartQuiet(w, McpPayload(r.intent), r.login); }
    case CliLogin(redirect, mode, cliState, nonce, state) =>
      var c := CliLoginIntent(cfg, redirect, mode, cliState, nonce, w.now + OAUTH_STATE_MAX_AGE);
      if c.Some? { StartQuiet(w, CliPayload(c.value), Login(state, nonce, w.now + OAUTH_STATE_MAX_AGE)); }
  }

  lemma CliTokenQuiet(w: World, code: string, state: string, stored: bool)
    ensures Quiet(w, AfterCliToken(w, code, state, stored), {}, {})
  {
    hide Quiet, AfterRedeem, Redeemed;
    StoresSame(w, AfterCliToken(w, code, state, stored));
  }

  lemma PlainQuiet(w: World, state: string)
    ensures Quiet(w, AfterPlainLogin(w, state), {}, {})
  {
    hide Quiet;
    StoresSame(w, AfterPlainLogin(w, state));
  }

  lemma PutStays<T>(m: Entries<T>, id: string, v: T, now: int)
    ensures Stay(m, Put(m, id, v, now), now, {id})
  {
  }

  lemma CallbackQuiet(w: World, r: CallbackRequest, id: string)
    ensures Quiet(w, AfterCallback(w, r, id), {id}, {})
  {
    var v := Verified(w, r);
    assert EndOf(v, w.now).ToConsent? || EndOf(v, w.now).ToCli? ==> v.login.Some? && v.actor.Some?;
    hide EndOf, Minted, Put, Expired, Verified, PendingOf;
    if EndOf(v, w.now).ToConsent? {
      PutStays(w.consents, id, PendingOf(Begun(EndOf(v, w.now).mcp, v.login.value, v.actor.value, w.now)), w.now);
    }
  }

  lemma SpentStays<T>(m: Entries<T>, id: string, now: int)
    ensures Stay(m, Spent(m, id), now, {id})
  {
  }

  lemma AllStay<T>(m: Entries<T>, now: int, except: set<string>)
    ensures Stay(m, m, now, except)
  {
  }

  lemma ConsentQuiet(w: World, r: ConsentRequest, code: string)
    ensures Quiet(w, AfterConsent(w, r, code), {r.formId}, {code})
  {
    var v := r.(session := Signed(r.session, w.sessions));
    hide Consented, MayConsent, Put, Spent, Stay, CodeOf, Signed;
    AllStay(w.consents, w.now, {r.formId});
    AllStay(w.codes, w.now, {code});
    SpentStays(w.consents, r.formId, w.now);
    if MayConsent(v, w.now) && Consented(w.consents, v, w.now).Some? {
      PutStays(w.codes, code, CodeOf(Consented(w.consents, v, w.now).value), w.now);
    }
  }

  lemma TokenQuiet(cfg: Config, w: World, r: TokenRequest)
    ensures Quiet(w, AfterToken(cfg, w, r), {}, {r.code})
  {
    hide Matches, MayRedeem;
  }

  lemma StepsQuiet(cfg: Config, w: World, a: Action)
    requires !a.Restart?
    ensures Quiet(w, Next(cfg, w, a), if a.CallbackStep? then {a.id} - w.used else if a.ConsentStep? then {a.consent.formId} else {},
                  if a.ConsentStep? then {a.code} - w.used else if a.TokenStep? then {a.token.code} else {})
  {
    hide AfterCallback, AfterConsent, AfterToken, AfterAuthorize, AfterPlainLogin, AfterCliLogin, AfterCliToken;
    match a
    case CallbackStep(r, id) =>
      if Fresh(w, {id}) {
        assert id in {id};
        CallbackQuiet(w, r, id);
      }
    case ConsentStep(r, code) =>
      if Fresh(w, {code}) {
        assert code in {code};
        ConsentQuiet(w, r, code);
      }
    case TokenStep(r) => TokenQuiet(cfg, w, r);
    case PlainLogin(state) => PlainQuiet(w, state);
    case CliTokenStep(code, state, stored) => CliTokenQuiet(w, code, state, stored);
    case Wait(_) => 
    case _ => LoginsQuiet(cfg, w, a);
  }

  lemma StepsLater(cfg: Config, w: World, a: Action)
    ensures Later(w, Next(cfg, w, a))
  {
    hide AfterCallback, AfterConsent, AfterToken, AfterAuthorize, AfterPlainLogin, AfterCliLogin, AfterCliToken, Fresh;
    if !a.Restart? { StepsQuiet(cfg, w, a); }
  }

  /** A pending consent stays pending until it is answered or too old. */
  lemma {:induction false} ConsentStays(cfg: Config, w: World, actions: seq<Action>, id: string)
    requires id in w.consents && id in w.used && LeavesConsent(actions, id)
    requires Run(cfg, w, actions).now <= w.consents[id].expires
    ensures id in Run(cfg, w, actions).consents && Run(cfg, w, actions).consents[id] == w.consents[id]
    decreases |actions|
  {
    if actions != [] {
      var w' := Next(cfg, w, actions[0]);
      StepsLater(cfg, w, actions[0]);
      RunsLater(cfg, w', actions[1..]);
      hide Run;
      RunCons(cfg, w, actions);
      ConsentStaysOnce(cfg, w, actions[0], id);
      ConsentStays(cfg, w', actions[1..], id);
    }
  }

  lemma ConsentStaysOnce(cfg: Config, w: World, a: Action, id: string)
    requires id in w.consents && id in w.used && LeavesConsent([a], id) && w.now <= w.consents[id].expires
    ensures var w' := Next(cfg, w, a); id in w'.consents && w'.consents[id] == w.consents[id]
  {
    hide Next, Later;
    assert [a][0] == a;
    StepsQuiet(cfg, w, a);
  }

  /** And so does a pending code. */
  lemma {:induction false} CodeStays(cfg: Config, w: World, actions: seq<Action>, code: string)
    requires code in w.codes && code in w.used && LeavesCode(actions, code)
    requires Run(cfg, w, actions).now <= w.codes[code].expires
    ensures code in Run(cfg, w, actions).codes && Run(cfg, w, actions).codes[code] == w.codes[code]
    decreases |actions|
  {
    if actions != [] {
      var w' := Next(cfg, w, actions[0]);
      StepsLater(cfg, w, actions[0]);
      RunsLater(cfg, w', actions[1..]);
      hide Run;
      RunCons(cfg, w, actions);
      CodeStaysOnce(cfg, w, actions[0], code);
      CodeStays(cfg, w', actions[1..], code);
    }
  }

  lemma CodeStaysOnce(cfg: Config, w: World, a: Action, code: string)
    requires code in w.codes && code in w.used && LeavesCode([a], code) && w.now <= w.codes[code].expires
    ensures var w' := Next(cfg, w, a); code in w'.codes && w'.codes[code] == w.codes[code]
  {
    hide Next, Later;
    assert [a][0] == a;
    StepsQuiet(cfg, w, a);
  }

  /** The user's part: the callback right after the login, the form, and the client's token request. */
  function TheCallback(q: AuthRequest, nonce: string, state: string, actor: string, begun: int): CallbackRequest {
    CallbackRequest(Some(LoginOf(state, nonce, begun)),
                    Some(McpPayload(Intent(q.client, q.redirect, q.challenge, q.resource, q.state, nonce, begun + OAUTH_STATE_MAX_AGE))),
                    None, state, Some(actor))
  }

  function TheConsent(actor: string, id: string, at: int): ConsentRequest {
    ConsentRequest(true, Some(Session(actor, at + SESSION_LIFETIME)), id, Some(id), true)
  }

  function TheToken(q: AuthRequest, code: string, verifier: string): TokenRequest {
    TokenRequest("authorization_code", q.client, q.redirect, code, verifier, q.resource, true)
  }

  /** An accepted request that its user carries through gets its token, on any server and whatever other
      requests come in between, as long as each step is within its lifetime: ten minutes for the login, five
      for the consent, five for the code. */
  lemma FlowSucceeds(cfg: Config, w0: World, q: AuthRequest, nonce: string, state: string, actor: string,
                     id: string, code: string, verifier: string,
                     a: seq<Action>, b: seq<Action>, c: seq<Action>)
    requires Authorize(cfg, q, w0.now, nonce, state).LoginStarted?
    requires verifier != "" && cfg.hash(verifier) == q.challenge
    requires Fresh(w0, {nonce, state}) && nonce != state
    requires var w1 := Run(cfg, Next(cfg, w0, AuthorizeStep(q, nonce, state)), a);
      && Fresh(w1, {id}) && w1.now < w0.now + OAUTH_STATE_MAX_AGE
      && var w2 := Run(cfg, Next(cfg, w1, CallbackStep(TheCallback(q, nonce, state, actor, w0.now), id)), b);
      && Fresh(w2, {code}) && LeavesConsent(b, id) && w2.now <= w1.now + TTL
      && var w3 := Run(cfg, Next(cfg, w2, ConsentStep(TheConsent(actor, id, w1.now), code)), c);
      && LeavesCode(c, code) && w3.now <= w2.now + TTL
    ensures var w1 := Run(cfg, Next(cfg, w0, AuthorizeStep(q, nonce, state)), a);
      var w2 := Run(cfg, Next(cfg, w1, CallbackStep(TheCallback(q, nonce, state, actor, w0.now), id)), b);
      var w3 := Run(cfg, Next(cfg, w2, ConsentStep(TheConsent(actor, id, w1.now), code)), c);
      Next(cfg, w3, TokenStep(TheToken(q, code, verifier))).tokens == w3.tokens + [Token(actor, TheToken(q, code, verifier), w3.now)]
  {
    FlowStarts(cfg, w0, q, nonce, state);
    hide Next, Run, Authorize, Accepted, Fresh, LeavesConsent, LeavesCode, TheToken, TheConsent;
    var v1 := Next(cfg, w0, AuthorizeStep(q, nonce, state));
    RunsLater(cfg, v1, a);
    FlowFromCallback(cfg, Run(cfg, v1, a), q, nonce, state, actor, id, code, verifier, w0.now, b, c);
  }

  lemma FlowFromCallback(cfg: Config, w1: World, q: AuthRequest, nonce: string, state: string,
                         actor: string, id: string, code: string, verifier: string, begun: int,
                         b: seq<Action>, c: seq<Action>)
    requires var r := TheCallback(q, nonce, state, actor, begun); r.login.value in w1.signed && r.mcp.value in w1.signed
    requires Accepted(cfg, TheCallback(q, nonce, state, actor, begun).mcp.value.mcp) && nonce != ""
    requires verifier != "" && cfg.hash(verifier) == q.challenge
    requires Fresh(w1, {id}) && w1.now < begun + OAUTH_STATE_MAX_AGE
    requires var w2 := Run(cfg, Next(cfg, w1, CallbackStep(TheCallback(q, nonce, state, actor, begun), id)), b);
      && Fresh(w2, {code}) && LeavesConsent(b, id) && w2.now <= w1.now + TTL
      && var w3 := Run(cfg, Next(cfg, w2, ConsentStep(TheConsent(actor, id, w1.now), code)), c);
      && LeavesCode(c, code) && w3.now <= w2.now + TTL
    ensures var w2 := Run(cfg, Next(cfg, w1, CallbackStep(TheCallback(q, nonce, state, actor, begun), id)), b);
      var w3 := Run(cfg, Next(cfg, w2, ConsentStep(TheConsent(actor, id, w1.now), code)), c);
      Next(cfg, w3, TokenStep(TheToken(q, code, verifier))).tokens == w3.tokens + [Token(actor, TheToken(q, code, verifier), w3.now)]
  {
    var i := TheCallback(q, nonce, state, actor, begun).mcp.value.mcp;
    assert q.client == i.client && q.redirect == i.redirect && q.resource == i.resource && q.challenge == i.challenge;
    hide Next, Run, Accepted, Fresh, LeavesConsent, LeavesCode, TheToken, TheConsent, TheCallback;
    var v2 := FlowBegins(cfg, w1, q, nonce, state, actor, id, begun);
    var w2 := Run(cfg, v2, b);
    RunsLater(cfg, v2, b);
    ConsentStays(cfg, v2, b, id);
    FlowFromConsent(cfg, w2, q, i, actor, id, code, verifier, w1.now, c);
  }

  lemma FlowFromConsent(cfg: Config, w2: World, q: AuthRequest, i: Intent, actor: string, id: string,
                        code: string, verifier: string, begun: int, c: seq<Action>)
    requires id in w2.consents && w2.consents[id] == Entry(Pending(i, actor), begun + TTL) && id != ""
    requires w2.now <= begun + TTL && Session(actor, begun + SESSION_LIFETIME) in w2.sessions && Fresh(w2, {code})
    requires Accepted(cfg, i) && verifier != "" && cfg.hash(verifier) == i.challenge
    requires q.client == i.client && q.redirect == i.redirect && q.resource == i.resource
    requires var w3 := Run(cfg, Next(cfg, w2, ConsentStep(TheConsent(actor, id, begun), code)), c);
      LeavesCode(c, code) && w3.now <= w2.now + TTL
    ensures var w3 := Run(cfg, Next(cfg, w2, ConsentStep(TheConsent(actor, id, begun), code)), c);
      Next(cfg, w3, TokenStep(TheToken(q, code, verifier))).tokens == w3.tokens + [Token(actor, TheToken(q, code, verifier), w3.now)]
  {
    hide Next, Run, Accepted, Fresh, LeavesCode, TheToken, TheConsent, CodeOf, Later;
    var v3 := FlowAllows(cfg, w2, i, actor, id, code, begun);
    CodeStays(cfg, v3, c, code);
    FlowEnds(cfg, Run(cfg, v3, c), q, i, actor, code, verifier);
  }

  /** Authorize signs both cookies. */
  lemma FlowStarts(cfg: Config, w: World, q: AuthRequest, nonce: string, state: string)
    requires Authorize(cfg, q, w.now, nonce, state).LoginStarted? && Fresh(w, {nonce, state}) && nonce != state
    ensures var v := Next(cfg, w, AuthorizeStep(q, nonce, state));
      var r := TheCallback(q, nonce, state, "", w.now);
      r.login.value in v.signed && r.mcp.value in v.signed
    ensures nonce != "" && Accepted(cfg, TheCallback(q, nonce, state, "", w.now).mcp.value.mcp)
  {
    FreshEach(w, nonce, state);
    AuthorizedIntent(cfg, q, w.now, nonce, state);
    AuthorizeRedirectsOnlyRegistered(cfg, q, w.now, nonce, state);
    hide Authorize, IsResource, AfterCallback, AfterConsent, AfterToken, AfterCliToken, AfterCliLogin;
  }

  /** The callback leaves the pending consent and a session. */
  lemma FlowBegins(cfg: Config, w: World, q: AuthRequest, nonce: string, state: string, actor: string, id: string, begun: int)
    returns (v: World)
    requires var r := TheCallback(q, nonce, state, actor, begun); r.login.value in w.signed && r.mcp.value in w.signed
    requires nonce != "" && Fresh(w, {id}) && w.now < begun + OAUTH_STATE_MAX_AGE
    ensures var r := TheCallback(q, nonce, state, actor, begun);
      && v == Next(cfg, w, CallbackStep(r, id)) && v.now == w.now
      && id in v.consents && v.consents[id] == Entry(Pending(r.mcp.value.mcp, actor), w.now + TTL)
      && Session(actor, w.now + SESSION_LIFETIME) in v.sessions && id in v.used && id != ""
  {
    hide Authorize, AfterConsent, AfterToken, AfterCliToken, AfterCliLogin, AfterCliBegin, AfterAuthorize;
    var r := TheCallback(q, nonce, state, actor, begun);
    assert id in {id};
    assert Verified(w, r) == r && EndOf(r, w.now) == ToConsent(r.mcp.value);
    v := Next(cfg, w, CallbackStep(r, id));
  }

  /** Allow leaves the pending code. */
  lemma FlowAllows(cfg: Config, w: World, i: Intent, actor: string, id: string, code: string, begun: int) returns (v: World)
    requires id in w.consents && w.consents[id] == Entry(Pending(i, actor), begun + TTL)
    requires w.now <= begun + TTL && Session(actor, begun + SESSION_LIFETIME) in w.sessions && Fresh(w, {code}) && id != ""
    ensures v == Next(cfg, w, ConsentStep(TheConsent(actor, id, begun), code)) && v.now == w.now
    ensures code in v.codes && v.codes[code] == Entry(CodeOf(Pending(i, actor)), w.now + TTL) && code in v.used
  {
    hide AfterCallback, AfterAuthorize, AfterCliLogin, AfterCliToken, AfterToken;
    v := Next(cfg, w, ConsentStep(TheConsent(actor, id, begun), code));
    assert code in {code};
  }

  lemma FlowEnds(cfg: Config, w: World, q: AuthRequest, i: Intent, actor: string, code: string, verifier: string)
    requires code in w.codes && w.codes[code].v == CodeOf(Pending(i, actor)) && w.now <= w.codes[code].expires
    requires Accepted(cfg, i) && verifier != "" && cfg.hash(verifier) == i.challenge
    requires q.client == i.client && q.redirect == i.redirect && q.resource == i.resource
    ensures Next(cfg, w, TokenStep(TheToken(q, code, verifier))).tokens == w.tokens + [Token(actor, TheToken(q, code, verifier), w.now)]
  {
    hide IsResource, TrimSlashes, AfterConsent, AfterCallback, AfterAuthorize, AfterCliLogin, AfterCliToken, Fresh;
  }

  // ----- The handlers that change the stores

  class OauthServer {
    const cfg: Config
    const consents: TtlStore<Pending>
    const codes: TtlStore<Code>
    const cliCodes: CliCodeStore
    var tokens: seq<Token>

    constructor (cfg: Config, consents: TtlStore<Pending>, codes: TtlStore<Code>, cliCodes: CliCodeStore)
      ensures this.cfg == cfg && this.consents == consents && this.codes == codes && this.cliCodes == cliCodes && tokens == []
    {
      this.cfg, this.consents, this.codes, this.cliCodes, tokens := cfg, consents, codes, cliCodes, [];
    }

    /** `finishLogin` after the login itself has been verified. */
    method FinishLogin(r: CallbackRequest, id: string, now: int) returns (ended: Ended)
      requires LoginHolds(r, now)
      modifies consents, cliCodes
      ensures ended == EndOf(r, now)
      ensures consents.m == if ended.ToConsent? then Put(old(consents.m), id, Pending(AsMcp(ended.mcp), r.actor.value), now)
                            else old(consents.m)
      ensures cliCodes.codes == if ended.ToCli? then Minted(old(cliCodes.codes), id, r.actor.value, AsCli(ended.cli).state, now)
                                else old(cliCodes.codes)
      ensures var nonce := AsLogin(r.login.value).nonce;
        var mcp := nonce != "" && r.mcp.Some? && AsMcp(r.mcp.value).nonce == nonce && AsMcp(r.mcp.value).exp > now;
        var cli := nonce != "" && r.cli.Some? && AsCli(r.cli.value).nonce == nonce && AsCli(r.cli.value).exp > now;
        && (mcp <==> ended.ToConsent?) && (ended.ToCli? <==> cli && !mcp) && (ended.ToWeb? <==> !cli && !mcp)
        && (ended.ToConsent? ==> ended.mcp == r.mcp.value) && (ended.ToCli? ==> ended.cli == r.cli.value)
    {
      var nonce := AsLogin(r.login.value).nonce;
      if nonce != "" {
        if r.mcp.Some? {
          var mi := AsMcp(r.mcp.value);
          if now < mi.exp && mi.nonce == nonce {
            consents.Store(id, Pending(mi, r.actor.value), now);
            return ToConsent(r.mcp.value);
          }
        }
        if r.cli.Some? {
          var ci := AsCli(r.cli.value);
          if now < ci.exp && ci.nonce == nonce {
            cliCodes.Mint(id, r.actor.value, ci.state, now);
            return ToCli(r.cli.value);
          }
        }
      }
      return ToWeb;
    }

    /** Only a same-origin form of a live session with the consent's own cookie reaches the consent, and it
        spends it. Deny answers with an error and mints nothing. */
    method OauthConsent(r: ConsentRequest, code: string, now: int) returns (answer: ConsentAnswer)
      modifies consents, codes
      ensures ConsentHandled(consents.m, codes.m, answer) == HandleConsent(old(consents.m), old(codes.m), r, code, now)
      ensures consents.m == if AsksFor(r, r.formId, now) then old(consents.m) - {r.formId} else old(consents.m)
      ensures !r.allow ==> codes.m == old(codes.m) && !answer.CodeIssued?
      ensures !answer.CodeIssued? ==> codes.m == old(codes.m)
      ensures !answer.ConsentRefused? <==>
        AsksFor(r, r.formId, now) && PendingFor(old(consents.m), r.formId, r.session.value.actor, now)
      ensures !answer.ConsentRefused? ==>
        var i := old(consents.m)[r.formId].v.intent;
        if r.allow then
          && answer == CodeIssued(i.redirect, i.state, code) && code in codes.m
          && codes.m[code] == Entry(Code(r.session.value.actor, i.client, i.redirect, i.challenge, i.resource), now + 300)
          && (forall c :: c in codes.m && c != code ==> c in old(codes.m) && codes.m[c] == old(codes.m)[c])
          && (forall c :: c in old(codes.m) && now <= old(codes.m)[c].expires ==> c in codes.m)
        else answer == Denied(i.redirect, i.state)
    {
      if !r.sameOrigin || r.session.None? || now >= r.session.value.exp {
        return ConsentRefused;
      }
      var actor := r.session.value.actor;
      if r.cookieId.None? || r.formId == "" || r.cookieId.value != r.formId {
        return ConsentRefused;
      }
      var p := consents.Take(r.formId, now);
      if p.None? || p.value.actor != actor {
        return ConsentRefused;
      }
      var mi := p.value.intent;
      if !r.allow {
        return Denied(mi.redirect, mi.state);
      }
      codes.Store(code, Code(p.value.actor, mi.client, mi.redirect, mi.challenge, mi.resource), now);
      return CodeIssued(mi.redirect, mi.state, code);
    }

    /** Every request that gets as far as the lookup spends the code. */
    method OauthToken(r: TokenRequest, now: int) returns (granted: bool)
      modifies this, codes
      ensures var asks := r.grantType == "authorization_code" && r.client in cfg.clients
                && (r.resource == "" || IsResource(cfg, r.resource));
        && codes.m == (if asks then old(codes.m) - {r.code} else old(codes.m))
        && (granted <==> asks && Redeems(cfg, old(codes.m), r, now) && r.stored)
      ensures granted ==> tokens == old(tokens) + [Token(old(codes.m)[r.code].v.actor, r, now)]
      ensures !granted ==> tokens == old(tokens)
      ensures var h := HandleToken(cfg, old(codes.m), r, now);
        && codes.m == h.codes && granted == h.actor.Some?
        && tokens == if granted then old(tokens) + [Token(h.actor.value, r, now)] else old(tokens)
    {
      if r.grantType != "authorization_code" || r.client !in cfg.clients { return false; }
      if r.resource != "" && !IsResource(cfg, r.resource) { return false; }
      var c := codes.Take(r.code, now);
      if c.None? { return false; }
      var res := TrimSlashes(r.resource);
      if c.value.client != r.client || c.value.redirect != r.redirect || r.verifier == ""
         || cfg.hash(r.verifier) != c.value.challenge {
        return false;
      }
      if res != "" && c.value.resource != "" && res != TrimSlashes(c.value.resource) { return false; }
      if !r.stored { return false; }
      tokens := tokens + [Token(c.value.actor, r, now)];
      return true;
    }
  }
}
