/**
 The proxy and a browser in a closed loop: the printed Set-Cookie line is stored, sent back and
 recognised, so that following redirects ends, and a browser is planted a cookie once a lifetime.
 */
module RedirectLoop {
  import opened Wrappers
  import opened Text
  import opened Base64
  import opened Identifiers
  import opened Lifetime
  import opened SessionTable
  import opened Interleaving
  import opened CookieIntegrity
  import opened SessionStore
  import opened ExtAuth
  import opened CallsAreRuns
  import opened CookieHeader
  import opened UserAgent
  import CookieSigning

  // ------------------------------------------------------------- the cookie value is plain

  predicate PlainCookie(cookie: string) {
    cookie != "" && ValueText(cookie) && ' ' !in cookie
  }

  lemma SignedIsPlain(cfg: Config, sid: string)
    requires UrlSafeText(sid)
    ensures PlainCookie(cfg.Sign(sid))
  {
    var sig := CookieSigning.Signature(sid, cfg.secret, cfg.mac);
    CookieSigning.SignatureForm(sid, cfg.secret, cfg.mac);
    forall c | c in cfg.Sign(sid) ensures ValueChar(c) && c != ' ' {
      assert c in "s:" || c in sid || c == '.' || c in sig;
    }
  }

  // ------------------------------------------------------------- printed, parsed and stored

  /** The attributes of the printed line, as they stand between the semicolons. */
  function PrintedAttributes(maxAge: int): seq<string> {
    [[' '] + "Path" + ['='] + "/ghost", [' '] + "HttpOnly", [' '] + "Secure", [' '] + "SameSite" + ['='] + "None",
     [' '] + "Max-Age" + ['='] + Printed(maxAge)]
  }

  function ParsedAttributes(maxAge: int): seq<Attribute> {
    [Attribute("path", "/ghost"), Attribute("httponly", ""), Attribute("secure", ""), Attribute("samesite", "None"),
     Attribute("max-age", Printed(maxAge))]
  }

  lemma LineIsListing(cookie: string, maxAge: int)
    ensures SetCookieLine(cookie, maxAge) == GHOST_COOKIE + ['='] + cookie + Listing(PrintedAttributes(maxAge))
  {
    hide Printed, Listing;
    var avs := PrintedAttributes(maxAge);
    ListingOfFive(avs[0], avs[1], avs[2], avs[3], avs[4]);
    assert Listing(avs) == [';'] + avs[0] + ([';'] + avs[1]) + ([';'] + avs[2]) + ([';'] + avs[3]) + ([';'] + avs[4]);
    PrintedPieces(maxAge);
    Regroup(GHOST_COOKIE + "=" + cookie, "; Path=/ghost", "; HttpOnly", "; Secure", "; SameSite=None", "; Max-Age=",
      Printed(maxAge));
  }

  lemma Regroup(h: string, a: string, b: string, c: string, d: string, e: string, f: string)
    ensures h + a + b + c + d + e + f == h + (a + b + c + d + (e + f))
  {
  }

  lemma PrintedPieces(maxAge: int)
    ensures var avs := PrintedAttributes(maxAge);
            && "; Path=/ghost" == [';'] + avs[0] && "; HttpOnly" == [';'] + avs[1] && "; Secure" == [';'] + avs[2]
            && "; SameSite=None" == [';'] + avs[3] && "; Max-Age=" + Printed(maxAge) == [';'] + avs[4]
  {
    hide Printed;
    PathPiece();
    FlagPieces();
    SameSitePiece();
  }

  lemma PathPiece()
    ensures "; Path=/ghost" == [';'] + ([' '] + "Path" + ['='] + "/ghost")
  {
  }

  lemma FlagPieces()
    ensures "; HttpOnly" == [';'] + ([' '] + "HttpOnly") && "; Secure" == [';'] + ([' '] + "Secure")
  {
  }

  lemma SameSitePiece()
    ensures "; SameSite=None" == [';'] + ([' '] + "SameSite" + ['='] + "None")
  {
  }

  lemma ListingOfFive(a: string, b: string, c: string, d: string, e: string)
    ensures Listing([a, b, c, d, e]) == [';'] + a + ([';'] + b) + ([';'] + c) + ([';'] + d) + ([';'] + e)
  {
    assert Listing([e]) == [';'] + e;
    assert [d, e][1..] == [e] && [c, d, e][1..] == [d, e] && [b, c, d, e][1..] == [c, d, e] &&
      [a, b, c, d, e][1..] == [b, c, d, e];
    assert Listing([d, e]) == [';'] + d + Listing([e]);
    assert Listing([c, d, e]) == [';'] + c + Listing([d, e]);
    assert Listing([b, c, d, e]) == [';'] + b + Listing([c, d, e]);
  }

  lemma PrintedChars(n: int)
    ensures forall c <- Printed(n) :: IsDigit(c) || c == '-'
  {
    DecimalRoundTrip(if n < 0 then -n else n);
  }

  lemma PathAndSameSiteParse()
    ensures AttributeOf([' '] + "Path" + ['='] + "/ghost") == Attribute("path", "/ghost")
    ensures AttributeOf([' '] + "SameSite" + ['='] + "None") == Attribute("samesite", "None")
  {
    hide AttributeOf, Trim;
    PrintedAttribute("Path", "/ghost");
    PrintedAttribute("SameSite", "None");
    assert Lower("Path") == "path" && Lower("SameSite") == "samesite";
  }

  lemma FlagsParse()
    ensures AttributeOf([' '] + "HttpOnly") == Attribute("httponly", "")
    ensures AttributeOf([' '] + "Secure") == Attribute("secure", "")
  {
    hide AttributeOf, Trim;
    PrintedAttribute("HttpOnly", "");
    PrintedAttribute("Secure", "");
    assert Lower("HttpOnly") == "httponly" && Lower("Secure") == "secure";
  }

  lemma MaxAgeParses(maxAge: int)
    ensures AttributeOf([' '] + "Max-Age" + ['='] + Printed(maxAge)) == Attribute("max-age", Printed(maxAge))
    ensures ';' !in [' '] + "Max-Age" + ['='] + Printed(maxAge)
  {
    hide AttributeOf, Trim, Printed;
    PrintedChars(maxAge);
    PrintedAttribute("Max-Age", Printed(maxAge));
    assert Lower("Max-Age") == "max-age";
  }

  lemma AttributesParse(maxAge: int)
    ensures forall av <- PrintedAttributes(maxAge) :: ';' !in av
    ensures seq(5, i requires 0 <= i < 5 => AttributeOf(PrintedAttributes(maxAge)[i])) == ParsedAttributes(maxAge)
  {
    hide AttributeOf, Printed;
    PathAndSameSiteParse();
    FlagsParse();
    MaxAgeParses(maxAge);
  }

  lemma DeltaOfPrinted(n: int)
    ensures DeltaSeconds(Printed(n)) == Some(n)
  {
    hide Decimal, DecimalValue;
    var m: nat := if n < 0 then -n else n;
    DecimalRoundTrip(m);
    assert Decimal(m)[0] in Decimal(m);
    if n < 0 {
      assert Printed(n)[1..] == Decimal(m);
    }
  }

  function StoredCookie(cookie: string, host: string, expiry: int): Cookie {
    Cookie(GHOST_COOKIE, cookie, host, "/ghost", Some(expiry), true, true)
  }

  /** The printed line is read back as the pair, the path, both flags and the expiry. */
  lemma LineRoundTrip(cookie: string, maxAge: int, host: string, defaultPath: string, now: int)
    requires PlainCookie(cookie)
    ensures Parse(SetCookieLine(cookie, maxAge), host, defaultPath, now) ==
      Some(StoredCookie(cookie, host, now + maxAge * NS))
  {
    hide ParsedAttributes, Attributes, SetCookieLine, Trim, Printed, MaxAgeOf, PathOf, Flagged, Before, Text.After,
      PlainCookie, Parse;
    LineSplits(cookie, maxAge);
    PairParses(cookie);
    AttributeValues(maxAge, defaultPath);
    ParseByParts(SetCookieLine(cookie, maxAge), GHOST_COOKIE, cookie, maxAge, host, defaultPath, now);
  }

  lemma ParseByParts(line: string, name: string, value: string, delta: int, host: string, defaultPath: string, now: int)
    requires var pair := Before(line, ';');
             '=' in pair && name != "" && Trim(Before(pair, '='), WSP) == name &&
               Trim(Text.After(pair, '='), WSP) == value
    requires var attributes := Attributes(line);
             MaxAgeOf(attributes) == Some(delta) && Flagged(attributes, "secure") && Flagged(attributes, "httponly")
    ensures Parse(line, host, defaultPath, now) ==
            Some(Cookie(name, value, host, PathOf(Attributes(line), defaultPath), Some(now + delta * NS), true, true))
  {
    hide Attributes, Trim, MaxAgeOf, PathOf, Flagged, Before, Text.After;
  }

  lemma LineSplits(cookie: string, maxAge: int)
    requires PlainCookie(cookie)
    ensures Before(SetCookieLine(cookie, maxAge), ';') == GHOST_COOKIE + ['='] + cookie
    ensures Attributes(SetCookieLine(cookie, maxAge)) == ParsedAttributes(maxAge)
  {
    hide AttributeOf, Listing, PrintedAttributes, ParsedAttributes, Attributes, SetCookieLine, Printed, Before,
      PlainCookie;
    var pair := GHOST_COOKIE + ['='] + cookie;
    LineIsListing(cookie, maxAge);
    AttributesParse(maxAge);
    NoSemicolon(cookie);
    BeforeListing(pair, PrintedAttributes(maxAge));
    AttributesOfListing(pair, PrintedAttributes(maxAge));
    AttributeCount(maxAge);
  }

  lemma AttributeCount(maxAge: int)
    ensures |PrintedAttributes(maxAge)| == 5
  {
  }

  lemma NoSemicolon(cookie: string)
    requires PlainCookie(cookie)
    ensures ';' !in GHOST_COOKIE + ['='] + cookie
  {
    assert ';' !in GHOST_COOKIE;
  }

  lemma PairParses(cookie: string)
    requires PlainCookie(cookie)
    ensures var pair := GHOST_COOKIE + ['='] + cookie;
            '=' in pair && Trim(Before(pair, '='), WSP) == GHOST_COOKIE && Trim(Text.After(pair, '='), WSP) == cookie
  {
    hide Trim;
    assert cookie[0] in cookie && cookie[|cookie| - 1] in cookie;
    PairSplits(GHOST_COOKIE, cookie);
  }

  lemma PairSplits(name: string, value: string)
    requires name != "" && '=' !in name && name[0] !in WSP && name[|name| - 1] !in WSP
    requires value != "" && value[0] !in WSP && value[|value| - 1] !in WSP
    ensures var pair := name + ['='] + value;
            '=' in pair && Trim(Before(pair, '='), WSP) == name && Trim(Text.After(pair, '='), WSP) == value
  {
    var pair := name + ['='] + value;
    CutAt(name, '=', value);
    assert pair[|name|] == '=';
    TrimNothing(name, WSP);
    TrimNothing(value, WSP);
  }

  lemma AttributeValues(maxAge: int, defaultPath: string)
    ensures var attributes := ParsedAttributes(maxAge);
            MaxAgeOf(attributes) == Some(maxAge) && PathOf(attributes, defaultPath) == "/ghost" &&
            Flagged(attributes, "secure") && Flagged(attributes, "httponly")
  {
    DeltaOfPrinted(maxAge);
    var attributes := ParsedAttributes(maxAge);
    assert attributes[2] in attributes && attributes[1] in attributes;
    assert PathOf(attributes[..4], defaultPath) == PathOf(attributes[..3], defaultPath) by {
      assert attributes[..4][..3] == attributes[..3];
    }
    assert attributes[..3][..2] == attributes[..2] && attributes[..2][..1] == attributes[..1];
    assert PathOf(attributes[..3], defaultPath) == PathOf(attributes[..2], defaultPath);
    assert PathOf(attributes[..2], defaultPath) == PathOf(attributes[..1], defaultPath);
  }

  /**
   One lifetime on both sides: what the browser stores has the path, the flags and the length of life that
   the row's session_data states, in seconds there, in milliseconds and nanoseconds here.
   */
  lemma CookieAgreesWithRow(days: Int64, cookie: string, host: string, defaultPath: string, planted: int,
                            userId: string, built: int)
    requires 0 < days <= LAST_DAYS && PlainCookie(cookie)
    ensures var parsed := Parse(SetCookieLine(cookie, MaxAgeSeconds(days)), host, defaultPath, planted);
            var meta := BuildSessionData(userId, days, built).cookie;
            && parsed.Some? && parsed.value.path == meta.path
            && parsed.value.secure == meta.secure && parsed.value.httpOnly == meta.httpOnly
            && (exists a <- Attributes(SetCookieLine(cookie, MaxAgeSeconds(days))) ::
                  a.name == "samesite" && Lower(a.value) == meta.sameSite)
            && parsed.value.expiry.Some? &&
              parsed.value.expiry.value - planted == meta.originalMaxAge * 1_000_000 == meta.expires - built
  {
    hide SetCookieLine, Parse, PlainCookie, Attributes;
    LineRoundTrip(cookie, MaxAgeSeconds(days), host, defaultPath, planted);
    LineSplits(cookie, MaxAgeSeconds(days));
    assert Attribute("samesite", "None") == ParsedAttributes(MaxAgeSeconds(days))[3];
    assert Lower("None") == "none";
    RepresentationsAgree(days);
  }

  // ------------------------------------------------------------- one redirect and its follow-up

  /** What a browser at `host` may ask of the proxy: a path under /ghost, over https. */
  predicate GhostRequest(path: string) {
    PathMatches(path, "/ghost")
  }

  /** Those paths are /ghost and everything below it. */
  lemma GhostPaths(path: string)
    ensures GhostRequest(path) <==> path == "/ghost" || "/ghost/" <= path
  {
    if "/ghost" < path && path[6] == '/' {
      assert path[..7] == path[..6] + ['/'];
    }
    if "/ghost/" <= path {
      assert path[6] == '/' && path[..6] == "/ghost/"[..6];
    }
  }

  lemma AdminPathIsGhost()
    ensures GhostRequest(GHOST_ADMIN_PATH)
  {
  }

  ghost predicate NoRecognisable(jar: set<Cookie>, host: string, path: string, now: int) {
    forall c <- jar :: IsSent(c, host, path, true, now) ==> !Recognisable(c)
  }

  lemma StoredIsRecognisable(cookie: string, host: string, expiry: int)
    requires PlainCookie(cookie)
    ensures Recognisable(StoredCookie(cookie, host, expiry))
  {
    PlainPairRecognised(cookie);
  }

  lemma StoredIsSent(cookie: string, host: string, expiry: int, path: string, now: int)
    requires GhostRequest(path)
    ensures IsSent(StoredCookie(cookie, host, expiry), host, path, true, now) <==> now < expiry
  {
  }

  /** The planted cookie goes to its own host only, over https only, below /ghost only, and until it expires. */
  lemma StoredIsSentIff(cookie: string, host: string, expiry: int, host': string, path: string, https: bool, now: int)
    ensures IsSent(StoredCookie(cookie, host, expiry), host', path, https, now) <==>
            host == host' && https && (path == "/ghost" || "/ghost/" <= path) && now < expiry
  {
    GhostPaths(path);
  }

  /** It replaces the one planted before. */
  lemma PlantedReplaces(jar: set<Cookie>, cookie: string, maxAge: int, host: string, defaultPath: string,
                        planted: int, c: Cookie)
    requires PlainCookie(cookie)
    requires c in Receive(jar, SetCookieLine(cookie, maxAge), host, defaultPath, planted)
    ensures c.name == "ghost-admin-api-session" && c.host == host && c.path == "/ghost" ==>
              c == StoredCookie(cookie, host, planted + maxAge * NS)
    ensures c in jar || c == StoredCookie(cookie, host, planted + maxAge * NS)
  {
    hide PlainCookie, SetCookieLine, Parse;
    LineRoundTrip(cookie, maxAge, host, defaultPath, planted);
  }

  /**
   After the planting redirect the proxy recognises the browser's next request exactly when that comes
   within Max-Age seconds or the browser had a recognisable cookie besides. Any jar, any order of cookies.
   */
  lemma RecognisedAfterPlanting(jar: set<Cookie>, cookie: string, maxAge: int, host: string, defaultPath: string,
                                planted: int, path: string, now: int, header: string)
    requires PlainCookie(cookie) && GhostRequest(path)
    requires var jar' := Receive(jar, SetCookieLine(cookie, maxAge), host, defaultPath, planted);
             Sends(jar', host, path, true, now, header)
    ensures now < planted + maxAge * NS ==> HasGhostSessionCookie(header)
    ensures now >= planted + maxAge * NS && NoRecognisable(jar, host, path, now) ==> !HasGhostSessionCookie(header)
  {
    hide HasGhostSessionCookie, IsSent, Recognisable, Parse, SetCookieLine;
    var jar' := Receive(jar, SetCookieLine(cookie, maxAge), host, defaultPath, planted);
    LineRoundTrip(cookie, maxAge, host, defaultPath, planted);
    var stored := StoredCookie(cookie, host, planted + maxAge * NS);
    StoredIsRecognisable(cookie, host, planted + maxAge * NS);
    StoredIsSent(cookie, host, planted + maxAge * NS, path, now);
    HeaderRecognisedIff(jar', host, path, true, now, header);
    assert stored in jar';
  }

  // ------------------------------------------------------------- calls

  /** A run in which request `r` arrives as the `i`-th action. */
  datatype Witness = Witness(s0: State, run: seq<Action>, i: nat, r: ReqId)

  ghost predicate AnsweredIn(cfg: Config, w: Witness, header: string, v: Verdict, a: Answer) {
    && Init(w.s0) && ValidRun(cfg, w.s0, w.run) && w.i < |w.run| && w.run[w.i] == Arrive(w.r, header, v)
    && var s := Interleaving.After(cfg, w.s0, w.run); w.r in s.reqs && s.reqs[w.r].pc == Done(a)
  }

  /** The proxy can answer so, in some run among whatever other requests. */
  ghost predicate Answers(cfg: Config, header: string, v: Verdict, a: Answer) {
    exists w: Witness :: AnsweredIn(cfg, w, header, v, a)
  }

  /** In particular a single call of the imperative server. */
  lemma CallAnswers(cfg: Config, users: map<string, User>, rows: seq<Row>, after: seq<Row>,
                    header: string, v: Verdict, a: Answer, start: int, end: int, t: Trace)
    requires CallDid(cfg, users, rows, after, header, v, a, start, end, t)
    requires DistinctIds(rows) && forall sid <- Ids(rows) :: SessionIdForm(sid)
    requires a.Plant? && t.Created? ==> Encode(UrlSafe, t.bytes) !in Ids(rows)
    ensures Answers(cfg, header, v, a)
  {
    hide CallDid, SessionIdForm, ValidRun, Interleaving.After;
    var run := CallIsARun(cfg, users, rows, after, header, v, a, start, end, t);
    assert AnsweredIn(cfg, Witness(Start(users, rows, start), run, 0, 0), header, v, a);
  }

  lemma {:induction false} DoneStays(cfg: Config, s: State, run: seq<Action>, r: ReqId)
    requires ValidRun(cfg, s, run) && r in s.reqs && s.reqs[r].pc.Done?
    ensures var s' := Interleaving.After(cfg, s, run); r in s'.reqs && s'.reqs[r] == s.reqs[r]
    decreases |run|
  {
    hide Advance, Arriving;
    if run != [] {
      DoneStays(cfg, Step(cfg, s, run[0]), run[1..], r);
    }
  }

  /** A request that is answered on arrival keeps that answer. */
  lemma {:induction false} ArrivalDecides(cfg: Config, s: State, run: seq<Action>, i: nat, r: ReqId, header: string,
                              v: Verdict)
    requires ValidRun(cfg, s, run) && i < |run| && run[i] == Arrive(r, header, v) && Arriving(header, v).pc.Done?
    ensures var s' := Interleaving.After(cfg, s, run); r in s'.reqs && s'.reqs[r] == Arriving(header, v)
    decreases |run|
  {
    hide Advance, Arriving;
    if i == 0 {
      DoneStays(cfg, Step(cfg, s, run[0]), run[1..], r);
    } else {
      ArrivalDecides(cfg, Step(cfg, s, run[0]), run[1..], i - 1, r, header, v);
    }
  }

  /** Planting happens only to a browser whose request carried no recognised cookie, with a plain value. */
  lemma PlantingMeansAbsent(cfg: Config, header: string, v: Verdict, a: Answer)
    requires Answers(cfg, header, v, a) && a.Plant?
    ensures !HasGhostSessionCookie(header) && PlainCookie(a.cookie) && v.Email?
  {
    var w: Witness :| AnsweredIn(cfg, w, header, v, a);
    hide HasGhostSessionCookie, PlainCookie, SessionIdForm, Interleaving.After, ValidRun;
    if Arriving(header, v).pc.Done? {
      ArrivalDecides(cfg, w.s0, w.run, w.i, w.r, header, v);
      assert false;
    }
    AnsweredCookiesAreGood(cfg, w.s0, w.run, w.r, a.cookie);
    var sid :| CookieSigning.Unsign(a.cookie, cfg.secret, cfg.mac) == Some(sid) && SessionIdForm(sid);
    SignVerifies(cfg, a.cookie, sid);
    FormIsUrlSafe(sid);
    SignedIsPlain(cfg, sid);
  }

  /** An answer never asks for the login page unless Authentik did. */
  lemma OnlyLoginsGoToLogin(cfg: Config, header: string, v: Verdict, a: Answer)
    requires Answers(cfg, header, v, a) && !v.Login?
    ensures !a.ToLogin?
  {
    var w: Witness :| AnsweredIn(cfg, w, header, v, a);
    NoLoginAnswer(cfg, w.s0, w.run, w.i, w.r, header, v);
  }

  ghost predicate NotToLogin(q: Request) {
    !(q.pc.Done? && q.pc.answer.ToLogin?)
  }

  lemma {:induction false} StaysOffLogin(cfg: Config, s: State, run: seq<Action>, r: ReqId)
    requires ValidRun(cfg, s, run) && r in s.reqs && NotToLogin(s.reqs[r])
    ensures var s' := Interleaving.After(cfg, s, run); r in s'.reqs && NotToLogin(s'.reqs[r])
    decreases |run|
  {
    hide Arriving;
    if run != [] {
      StaysOffLogin(cfg, Step(cfg, s, run[0]), run[1..], r);
    }
  }

  lemma {:induction false} NoLoginAnswer(cfg: Config, s: State, run: seq<Action>, i: nat, r: ReqId, header: string,
                              v: Verdict)
    requires ValidRun(cfg, s, run) && i < |run| && run[i] == Arrive(r, header, v) && !v.Login?
    ensures var s' := Interleaving.After(cfg, s, run); r in s'.reqs && NotToLogin(s'.reqs[r])
    decreases |run|
  {
    hide Advance, HasGhostSessionCookie;
    if i == 0 {
      StaysOffLogin(cfg, Step(cfg, s, run[0]), run[1..], r);
    } else {
      NoLoginAnswer(cfg, Step(cfg, s, run[0]), run[1..], i - 1, r, header, v);
    }
  }

  lemma FormIsUrlSafe(sid: string)
    requires SessionIdForm(sid)
    ensures UrlSafeText(sid)
  {
  }

  // ------------------------------------------------------------- termination

  predicate IsGhostCookie(c: Cookie, host: string) {
    c.name == GHOST_COOKIE && c.host == host && c.path == "/ghost"
  }

  /** From one jar to a later one the proxy's cookie has stayed, unless it has expired by `time`. */
  ghost predicate Keeps(jar: set<Cookie>, jar': set<Cookie>, host: string, time: int) {
    forall c <- jar :: IsGhostCookie(c, host) && c.expiry.Some? && time < c.expiry.value ==> c in jar'
  }

  /** A stored cookie that is still there makes the next request recognised, whatever else is in the jar. */
  lemma StoredIsRecognised(jar: set<Cookie>, cookie: string, host: string, expiry: int, path: string, now: int,
                           header: string)
    requires PlainCookie(cookie) && GhostRequest(path) && now < expiry && StoredCookie(cookie, host, expiry) in jar
    requires Sends(jar, host, path, true, now, header)
    ensures HasGhostSessionCookie(header)
  {
    hide HasGhostSessionCookie, IsSent, Recognisable, Sends;
    StoredIsRecognisable(cookie, host, expiry);
    StoredIsSent(cookie, host, expiry, path, now);
    HeaderRecognisedIff(jar, host, path, true, now, header);
  }

  lemma PlantedIsStored(jar: set<Cookie>, cookie: string, maxAge: int, host: string, defaultPath: string, planted: int)
    requires PlainCookie(cookie)
    ensures StoredCookie(cookie, host, planted + maxAge * NS) in
            Receive(jar, SetCookieLine(cookie, maxAge), host, defaultPath, planted)
  {
    hide PlainCookie, SetCookieLine, Parse;
    LineRoundTrip(cookie, maxAge, host, defaultPath, planted);
  }

  lemma PlantedIsKept(jar: set<Cookie>, jar': set<Cookie>, cookie: string, maxAge: int, host: string,
                      defaultPath: string, planted: int, now: int)
    requires PlainCookie(cookie) && now < planted + maxAge * NS
    requires Keeps(Receive(jar, SetCookieLine(cookie, maxAge), host, defaultPath, planted), jar', host, now)
    ensures StoredCookie(cookie, host, planted + maxAge * NS) in jar'
  {
    hide PlainCookie, SetCookieLine, Receive;
    PlantedIsStored(jar, cookie, maxAge, host, defaultPath, planted);
    assert IsGhostCookie(StoredCookie(cookie, host, planted + maxAge * NS), host);
  }

  /**
   Redirect termination. While Authentik reports no login page, of a call and the call after its redirect,
   one lets the browser through, provided the browser follows within Max-Age seconds and has kept the cookie;
   other answers and other requests may have come in between.
   */
  lemma SecondCallPasses(cfg: Config, jar: set<Cookie>, jar': set<Cookie>, host: string, defaultPath: string,
                         header1: string, v1: Verdict, a1: Answer, planted: int,
                         header2: string, v2: Verdict, a2: Answer, now: int)
    requires !v1.Login? && !v2.Login?
    requires Answers(cfg, header1, v1, a1) && Answers(cfg, header2, v2, a2)
    requires a1.Plant? ==>
               && Keeps(Receive(jar, SetCookieLine(a1.cookie, MaxAgeSeconds(cfg.days)), host, defaultPath, planted),
                 jar', host, now)
               && Sends(jar', host, GHOST_ADMIN_PATH, true, now, header2) && now < planted + CookieNanos(cfg.days)
    ensures a1 == Pass || (a1.Plant? && a2 == Pass)
  {
    hide HasGhostSessionCookie, PlainCookie, SetCookieLine, Sends, Answers, Keeps, Receive, GhostRequest,
      StoredCookie, MaxAgeSeconds;
    OnlyLoginsGoToLogin(cfg, header1, v1, a1);
    OnlyLoginsGoToLogin(cfg, header2, v2, a2);
    if a1.Plant? {
      PlantingMeansAbsent(cfg, header1, v1, a1);
      AdminPathIsGhost();
      PlantedIsKept(jar, jar', a1.cookie, MaxAgeSeconds(cfg.days), host, defaultPath, planted, now);
      StoredIsRecognised(jar', a1.cookie, host, planted + CookieNanos(cfg.days), GHOST_ADMIN_PATH, now, header2);
      if a2.Plant? {
        PlantingMeansAbsent(cfg, header2, v2, a2);
      }
    }
  }
}
