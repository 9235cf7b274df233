/**
 The Check call from the HTTP answer of Authentik to the response for Envoy. The code passes empty
 strings for "nothing"; each such tuple is shown to carry a proper sum type.
 */
module ExtAuth {
  import opened Wrappers
  import opened Text
  import opened Lifetime
  import opened SessionTable
  import opened Interleaving
  import opened SessionStore
  import opened CookieHeader
  import CookieSigning

  // ------------------------------------------------------------- Authentik's answer

  /** Headers are "" when absent. */
  datatype HttpOutcome =
    | NoResponse
    | Response(status: int, emailHeader: string, location: string, setCookies: seq<string>)

  /** Client.Check's four results. */
  datatype Reply = Reply(email: string, redirectUrl: string, setCookies: seq<string>, failed: bool)

  function Classify(endpoint: string, http: HttpOutcome): Reply {
    if endpoint == "" || http.NoResponse? then Reply("", "", [], true)
    else if http.status == 200 then
      if http.emailHeader == "" then Reply("", "", [], true) else Reply(http.emailHeader, "", [], false)
    else if http.status == 302 then
      if http.location == "" then Reply("", "", [], true) else Reply("", http.location, http.setCookies, false)
    else Reply("", "", [], true)
  }

  /** The same answer as one of three things. */
  function VerdictOf(endpoint: string, http: HttpOutcome): Verdict {
    if endpoint == "" || http.NoResponse? then Unavailable
    else if http.status == 200 && http.emailHeader != "" then Email(http.emailHeader)
    else if http.status == 302 && http.location != "" then Login(http.location, http.setCookies)
    else Unavailable
  }

  function TupleOf(v: Verdict): Reply {
    match v
    case Unavailable => Reply("", "", [], true)
    case Email(email) => Reply(email, "", [], false)
    case Login(url, cookies) => Reply("", url, cookies, false)
  }

  /** Exactly one of e-mail, redirect and failure is set, so the tuple gives the sum type back. */
  lemma ReplyCarriesVerdict(endpoint: string, http: HttpOutcome)
    ensures var reply, v := Classify(endpoint, http), VerdictOf(endpoint, http);
            && reply == TupleOf(v)
            && (reply.email != "" <==> v.Email?) && (reply.redirectUrl != "" <==> v.Login?) &&
              (reply.failed <==> v.Unavailable?)
            && forall endpoint', http' :: Classify(endpoint', http') == reply ==> VerdictOf(endpoint', http') == v
  {
    forall endpoint', http' ensures Classify(endpoint', http') == TupleOf(VerdictOf(endpoint', http')) {
    }
  }

  // ------------------------------------------------------------- responses

  /** Whether Envoy adds the header to those of its name or puts it in their place. */
  datatype Header = Header(key: string, value: string, overwrite: bool)

  /** 302 is a redirect with these headers in order. */
  datatype CheckResponse = OkResponse | DeniedResponse(status: int, headers: seq<Header>)

  function Others(fields: seq<(string, string)>, key: string): seq<(string, string)> {
    if fields == [] then [] else (if fields[0].0 == key then [] else [fields[0]]) + Others(fields[1..], key)
  }

  /** The header fields that reach the browser. */
  function Delivered(headers: seq<Header>): seq<(string, string)> {
    if headers == [] then []
    else
      var n := |headers| - 1;
      var before, last := Delivered(headers[..n]), headers[n];
      (if last.overwrite then Others(before, last.key) else before) + [(last.key, last.value)]
  }

  function SetCookieHeaders(cookies: seq<string>): seq<Header> {
    seq(|cookies|, i requires 0 <= i < |cookies| => Header("set-cookie", cookies[i], false))
  }

  /** Location first, then one Set-Cookie header per cookie, in order. */
  function RedirectTo(url: string, cookies: seq<string>): CheckResponse {
    DeniedResponse(302, [Header("location", url, true)] + SetCookieHeaders(cookies))
  }

  function SetCookieFields(cookies: seq<string>): seq<(string, string)> {
    seq(|cookies|, i requires 0 <= i < |cookies| => ("set-cookie", cookies[i]))
  }

  /** Every cookie of Authentik's answer reaches the browser, none replaced by a later one. */
  lemma {:induction false} AllCookiesArrive(url: string, cookies: seq<string>)
    ensures RedirectTo(url, cookies).status == 302
    ensures Delivered(RedirectTo(url, cookies).headers) == [("location", url)] + SetCookieFields(cookies)
  {
    var headers := RedirectTo(url, cookies).headers;
    var n := |headers| - 1;
    if cookies == [] {
      assert headers[..0] == [];
    } else {
      var fewer := cookies[..|cookies| - 1];
      AllCookiesArrive(url, fewer);
      assert headers[..n] == RedirectTo(url, fewer).headers;
      assert headers[n] == Header("set-cookie", cookies[|cookies| - 1], false);
    }
  }

  method DeniedRedirectTo(url: string, setCookies: seq<string>) returns (r: CheckResponse)
    ensures r == RedirectTo(url, setCookies) && r.status == 302
    ensures Delivered(r.headers) == [("location", url)] + SetCookieFields(setCookies)
  {
    var headers := [Header("location", url, true)];
    var i := 0;
    while i < |setCookies|
      invariant 0 <= i <= |setCookies|
      invariant headers == [Header("location", url, true)] + SetCookieHeaders(setCookies[..i])
    {
      headers := headers + [Header("set-cookie", setCookies[i], false)];
      i := i + 1;
    }
    assert setCookies[..i] == setCookies;
    AllCookiesArrive(url, setCookies);
    r := DeniedResponse(302, headers);
  }

  const GHOST_ADMIN_PATH := "/ghost/"

  function SetCookieLine(cookie: string, maxAgeSeconds: int): string {
    GHOST_COOKIE + "=" + cookie + "; Path=/ghost" + "; HttpOnly" + "; Secure" + "; SameSite=None" + "; Max-Age=" +
      Printed(maxAgeSeconds)
  }

  /** How an answer looks on the wire. */
  function ResponseOf(cfg: Config, a: Answer): CheckResponse {
    match a
    case Pass => OkResponse
    case ToLogin(url, cookies) => RedirectTo(url, cookies)
    case Plant(cookie) =>
      DeniedResponse(302, [Header("location", GHOST_ADMIN_PATH, true),
                           Header("set-cookie", SetCookieLine(cookie, MaxAgeSeconds(cfg.days)), true)])
  }

  /** The planting redirect reaches the browser with its target and its one cookie. */
  lemma PlantArrives(cfg: Config, cookie: string)
    ensures ResponseOf(cfg, Plant(cookie)).status == 302
    ensures Delivered(ResponseOf(cfg, Plant(cookie)).headers) ==
            [("location", GHOST_ADMIN_PATH), ("set-cookie", SetCookieLine(cookie, MaxAgeSeconds(cfg.days)))]
  {
    hide SetCookieLine;
    var line := SetCookieLine(cookie, MaxAgeSeconds(cfg.days));
    var headers := ResponseOf(cfg, Plant(cookie)).headers;
    assert headers[..1] == [headers[0]] && headers[..1][..0] == [];
    assert Delivered(headers[..1]) == [("location", GHOST_ADMIN_PATH)];
    assert Others([("location", GHOST_ADMIN_PATH)], "set-cookie") == [("location", GHOST_ADMIN_PATH)];
  }

  // ------------------------------------------------------------- what one call did

  predicate Active(users: map<string, User>, email: string) {
    email in users && users[email].status == "active"
  }

  /** The table after a cookie was planted: one row refreshed or one inserted, for an active user. */
  ghost predicate Planted(cfg: Config, users: map<string, User>, rows: seq<Row>, after: seq<Row>,
                          email: string, cookie: string, start: int, end: int, t: Trace) {
    Active(users, email) && start <= t.looked && t.stamped <= end &&
    exists sid :: CookieSigning.Unsign(cookie, cfg.secret, cfg.mac) == Some(sid) &&
      (FoundAndRefreshed(cfg, rows, after, users[email].id, sid, t) ||
       (InsertedNew(cfg, rows, after, users[email].id, sid, t) && t.looked <= t.drawn &&
        NoMatch(rows, users[email].id, t.looked - cfg.Window())))
  }

  /** Everything a call may do, as seen from outside. */
  ghost predicate CallDid(cfg: Config, users: map<string, User>, rows: seq<Row>, after: seq<Row>,
                          header: string, v: Verdict, a: Answer, start: int, end: int, t: Trace) {
    match v
    case Unavailable => a == Pass && after == rows
    case Login(url, cookies) => a == ToLogin(url, cookies) && after == rows
    case Email(email) =>
      if HasGhostSessionCookie(header) then a == Pass && after == rows
      else if !Active(users, email) then a == Pass && after == rows
      else
        (a == Pass && after == rows) ||
        (a.Plant? && Planted(cfg, users, rows, after, email, a.cookie, start, end, t))
  }

  /** No row was in the window and the random source failed: no session can be created. */
  ghost predicate MissedWithout(entropy: Entropy, cfg: Config, rows: seq<Row>, userId: string, start: int, end: int,
                              t: Trace) {
    !entropy.Complete() && start <= t.looked <= end && NoMatch(rows, userId, t.looked - cfg.Window())
  }

  /** An answer on the wire: what the browser is sent, from Authentik's HTTP answer and nothing in between. */
  lemma WireFollowsHttp(cfg: Config, users: map<string, User>, rows: seq<Row>, after: seq<Row>, header: string,
                        endpoint: string, http: HttpOutcome, a: Answer, start: int, end: int, t: Trace)
    requires CallDid(cfg, users, rows, after, header, VerdictOf(endpoint, http), a, start, end, t)
    ensures var resp := ResponseOf(cfg, a);
            if endpoint == "" || http.NoResponse? || http.status !in {200, 302} then resp == OkResponse && after == rows
            else if http.status == 302 then
              after == rows &&
              (if http.location == "" then resp == OkResponse
               else resp.DeniedResponse? && resp.status == 302 &&
                    Delivered(resp.headers) == [("location", http.location)] + SetCookieFields(http.setCookies))
            else
              (resp == OkResponse && after == rows) ||
              (http.emailHeader != "" && http.emailHeader in users && users[http.emailHeader].status == "active" &&
                !HasGhostSessionCookie(header) &&
               WiresPlanting(cfg, after, users[http.emailHeader].id, resp))
  {
    hide HasGhostSessionCookie, SetCookieLine, BuildSessionData, CookieSigning.Unsign;
    if a.ToLogin? {
      AllCookiesArrive(a.url, a.cookies);
    }
    if a.Plant? {
      PlantIsWired(cfg, users, rows, after, http.emailHeader, a.cookie, start, end, t);
    }
  }

  /** A redirect to /ghost/ with one cookie, which verifies for the session ID of a row of the user. */
  ghost predicate WiresPlanting(cfg: Config, after: seq<Row>, userId: string, resp: CheckResponse) {
    resp.DeniedResponse? && resp.status == 302 &&
    exists cookie: string, i: nat ::
      && i < |after| && after[i].userId == userId && after[i].data.userId == userId
      && CookieSigning.Unsign(cookie, cfg.secret, cfg.mac) == Some(after[i].sessionId)
      && Delivered(resp.headers) ==
         [("location", "/ghost/"), ("set-cookie", SetCookieLine(cookie, MaxAgeSeconds(cfg.days)))]
  }

  lemma PlantIsWired(cfg: Config, users: map<string, User>, rows: seq<Row>, after: seq<Row>, email: string,
                     cookie: string, start: int, end: int, t: Trace)
    requires Planted(cfg, users, rows, after, email, cookie, start, end, t)
    ensures WiresPlanting(cfg, after, users[email].id, ResponseOf(cfg, Plant(cookie)))
  {
    hide SetCookieLine, CookieSigning.Unsign;
    PlantArrives(cfg, cookie);
    var i: nat := if t.Reused? then t.i else |rows|;
    assert CookieSigning.Unsign(cookie, cfg.secret, cfg.mac) == Some(after[i].sessionId);
  }

  // ------------------------------------------------------------- the service and the server

  lemma ReusePlants(cfg: Config, users: map<string, User>, rows: seq<Row>, after: seq<Row>, email: string,
                    sid: string, start: int, end: int, t: Trace)
    requires Active(users, email) && start <= t.looked && t.stamped <= end
    requires FoundAndRefreshed(cfg, rows, after, users[email].id, sid, t)
    ensures Planted(cfg, users, rows, after, email, cfg.Sign(sid), start, end, t) && cfg.Sign(sid) != ""
  {
    SignVerifies(cfg, cfg.Sign(sid), sid);
  }

  /** The lookup that found nothing and the creation after it, seen as one. */
  lemma CreationPlants(cfg: Config, users: map<string, User>, rows: seq<Row>, after: seq<Row>, email: string,
                       sid: string, start: int, end: int, looked: int, t: Trace)
    requires Active(users, email) && start <= looked && t.stamped <= end
    requires InsertedNew(cfg, rows, after, users[email].id, sid, t) && looked <= t.drawn
    requires NoMatch(rows, users[email].id, looked - cfg.Window())
    ensures var whole := Created(looked, t.drawn, t.built, t.stamped, t.bytes, t.random);
            Planted(cfg, users, rows, after, email, cfg.Sign(sid), start, end, whole) && cfg.Sign(sid) != ""
  {
    var whole := Created(looked, t.drawn, t.built, t.stamped, t.bytes, t.random);
    SignVerifies(cfg, cfg.Sign(sid), sid);
    assert InsertedNew(cfg, rows, after, users[email].id, sid, whole);
  }

  class AuthService {
    const store: Store

    constructor (store: Store)
      ensures this.store == store
    {
      this.store := store;
    }

    /** "" with no error means that the browser has the cookie already; a signed value is never "". */
    method EnsureSession(cookieHeader: string, email: string, entropy: Entropy)
      returns (r: Result<string, string>, ghost t: Trace)
      requires ValidEntropy(entropy)
      modifies store.db`sessions, store.db`faults, store.clock
      ensures old(store.clock.now) <= store.clock.now && store.db.users == old(store.db.users)
      ensures r == Ok("") <==> HasGhostSessionCookie(cookieHeader)
      ensures r.Ok? && r.value != "" ==>
                Planted(store.cfg, store.db.users, old(store.db.sessions), store.db.sessions,
                        email, r.value, old(store.clock.now), store.clock.now, t)
      ensures r.Err? || r.value == "" ==> store.db.sessions == old(store.db.sessions)
      ensures old(store.db.faults) <= store.db.faults && (store.db.faults > old(store.db.faults) ==> r.Err?)
      ensures r.Err? ==> store.db.faults > old(store.db.faults) || !Active(store.db.users, email) ||
                         MissedWithout(entropy, store.cfg, store.db.sessions, store.db.users[email].id,
                           old(store.clock.now), store.clock.now, t)
    {
      hide HasGhostSessionCookie, Planted, FoundAndRefreshed, InsertedNew, NoMatch, Config.Sign;
      t := Created(0, 0, 0, 0, [], []);
      ghost var users, rows, start := store.db.users, store.db.sessions, store.clock.now;
      if HasGhostSessionCookie(cookieHeader) {
        return Ok(""), t;
      }
      var user := store.db.SelectUser(email);
      if user.Err? {
        return Err("user repository"), t;
      }
      if user.value.None? || user.value.value.status != "active" {
        return Err("unauthorized"), t;
      }
      var userId := user.value.value.id;
      ghost var lookup: Trace;
      var existing;
      existing, lookup := store.FindByUserId(userId);
      t := lookup;
      if existing.Err? {
        return Err("session store lookup"), t;
      }
      if existing.value.Some? {
        ReusePlants(store.cfg, users, rows, store.db.sessions, email, existing.value.value.sessionId, start,
          store.clock.now, lookup);
        return Ok(existing.value.value.signedCookieValue), lookup;
      }
      var created;
      ghost var creation: Trace;
      created, creation := store.Create(userId, entropy);
      if created.Err? {
        return Err("session store create"), t;
      }
      t := creation;
      CreationPlants(store.cfg, users, rows, store.db.sessions, email, created.value.sessionId, start,
        store.clock.now, lookup.looked, t);
      t := Created(lookup.looked, t.drawn, t.built, t.stamped, t.bytes, t.random);
      r := Ok(created.value.signedCookieValue);
    }
  }

  class Server {
    const auth: AuthService
    const endpoint: string
    const sessionMaxAgeSecs: int

    constructor (auth: AuthService, endpoint: string)
      ensures this.auth == auth && this.endpoint == endpoint
      ensures sessionMaxAgeSecs == MaxAgeSeconds(auth.store.cfg.days)
    {
      this.auth := auth;
      this.endpoint := endpoint;
      this.sessionMaxAgeSecs := MaxAgeSeconds(auth.store.cfg.days);
    }

    method Check(cookieHeader: string, http: HttpOutcome, entropy: Entropy)
      returns (resp: CheckResponse, ghost a: Answer, ghost t: Trace)
      requires ValidEntropy(entropy) && sessionMaxAgeSecs == MaxAgeSeconds(auth.store.cfg.days)
      modifies auth.store.db`sessions, auth.store.db`faults, auth.store.clock
      ensures old(auth.store.clock.now) <= auth.store.clock.now && auth.store.db.users == old(auth.store.db.users)
      ensures resp == ResponseOf(auth.store.cfg, a)
      ensures CallDid(auth.store.cfg, auth.store.db.users, old(auth.store.db.sessions), auth.store.db.sessions,
        cookieHeader,
                      VerdictOf(endpoint, http), a, old(auth.store.clock.now), auth.store.clock.now, t)
      ensures auth.store.db.faults > old(auth.store.db.faults) ==> resp == OkResponse
      ensures var users := auth.store.db.users;
              && endpoint != "" && http.Response? && http.status == 200 && http.emailHeader != ""
              && http.emailHeader in users && users[http.emailHeader].status == "active"
              && !HasGhostSessionCookie(cookieHeader)
              && auth.store.db.faults == old(auth.store.db.faults) && entropy.Complete() ==>
                WiresPlanting(auth.store.cfg, auth.store.db.sessions, users[http.emailHeader].id, resp)
      ensures var v := VerdictOf(endpoint, http);
              v.Email? && !HasGhostSessionCookie(cookieHeader) && Active(auth.store.db.users, v.email) && !a.Plant? ==>
                auth.store.db.faults > old(auth.store.db.faults) ||
                MissedWithout(entropy, auth.store.cfg, auth.store.db.sessions, auth.store.db.users[v.email].id,
                              old(auth.store.clock.now), auth.store.clock.now, t)
    {
      hide WiresPlanting, SetCookieLine, NoMatch, HasGhostSessionCookie;
      ghost var rows, start := auth.store.db.sessions, auth.store.clock.now;
      t := Created(0, 0, 0, 0, [], []);
      a := Pass;
      var reply := Classify(endpoint, http);
      ReplyCarriesVerdict(endpoint, http);
      if reply.failed {
        return OkResponse, a, t;
      }
      if reply.redirectUrl != "" {
        a := ToLogin(reply.redirectUrl, reply.setCookies);
        resp := DeniedRedirectTo(reply.redirectUrl, reply.setCookies);
        return;
      }
      var signed;
      signed, t := auth.EnsureSession(cookieHeader, reply.email, entropy);
      if signed.Err? {
        return OkResponse, a, t;
      }
      if signed.value == "" {
        return OkResponse, a, t;
      }
      a := Plant(signed.value);
      PlantIsWired(auth.store.cfg, auth.store.db.users, rows, auth.store.db.sessions, reply.email, signed.value,
                   start, auth.store.clock.now, t);
      resp := DeniedResponse(302, [Header("location", GHOST_ADMIN_PATH, true),
                                   Header("set-cookie", SetCookieLine(signed.value, sessionMaxAgeSecs), true)]);
    }
  }
}
