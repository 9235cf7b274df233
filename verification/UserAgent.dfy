/**
 The browser's cookie jar after RFC 6265: parsing Set-Cookie (section 5.2), storing (5.3), path
 matching (5.1.4) and the Cookie header (5.4). Times are nanoseconds; every cookie is host-only.
 */
module UserAgent {
  import opened Wrappers
  import opened Text
  import opened Lifetime
  import CookieHeader

  const WSP := {' ', '\t'}

  // ------------------------------------------------------------- section 5.2

  datatype Attribute = Attribute(name: string, value: string)

  function LowerChar(c: char): char {
    if 'A' <= c <= 'Z' then (c as int + 32) as char else c
  }

  function Lower(s: string): string {
    seq(|s|, i requires 0 <= i < |s| => LowerChar(s[i]))
  }

  function AttributeOf(av: string): Attribute {
    Attribute(Lower(Trim(Before(av, '='), WSP)), Trim(After(av, '='), WSP))
  }

  function Attributes(line: string): seq<Attribute>
    decreases |line|
  {
    if ';' !in line then []
    else
      var rest := After(line, ';');
      [AttributeOf(Before(rest, ';'))] + Attributes(rest)
  }

  /** A digit or '-', then digits only; anything else is ignored. */
  function DeltaSeconds(v: string): Option<int> {
    if v == "" then None
    else if IsDigit(v[0]) && (forall c <- v :: IsDigit(c)) then Some(DecimalValue(v))
    else if v[0] == '-' && |v| > 1 && (forall c <- v[1..] :: IsDigit(c)) then Some(-(DecimalValue(v[1..]) as int))
    else None
  }

  /** The last valid Max-Age counts. */
  function MaxAgeOf(attributes: seq<Attribute>): Option<int> {
    if attributes == [] then None
    else
      var last := attributes[|attributes| - 1];
      if last.name == "max-age" && DeltaSeconds(last.value).Some? then DeltaSeconds(last.value)
      else MaxAgeOf(attributes[..|attributes| - 1])
  }

  /** The last Path counts; an empty or relative one means the default path. */
  function PathOf(attributes: seq<Attribute>, defaultPath: string): string {
    if attributes == [] then defaultPath
    else
      var last := attributes[|attributes| - 1];
      if last.name == "path" then (if last.value != "" && last.value[0] == '/' then last.value else defaultPath)
      else PathOf(attributes[..|attributes| - 1], defaultPath)
  }

  predicate Flagged(attributes: seq<Attribute>, name: string) {
    exists a <- attributes :: a.name == name
  }

  // ------------------------------------------------------------- section 5.3

  datatype Cookie = Cookie(
    name: string, value: string, host: string, path: string, expiry: Option<int>, secure: bool, httpOnly: bool)

  /** What a Set-Cookie line stores, if anything. */
  function Parse(line: string, host: string, defaultPath: string, now: int): Option<Cookie> {
    var pair := Before(line, ';');
    if '=' !in pair then None
    else
      var name, value := Trim(Before(pair, '='), WSP), Trim(After(pair, '='), WSP);
      var attributes := Attributes(line);
      if name == "" then None
      else
        var expiry := match MaxAgeOf(attributes) case None => None case Some(delta) => Some(now + delta * NS);
        Some(Cookie(name, value, host, PathOf(attributes, defaultPath), expiry,
                    Flagged(attributes, "secure"), Flagged(attributes, "httponly")))
  }

  predicate SameKey(c: Cookie, d: Cookie) {
    c.name == d.name && c.host == d.host && c.path == d.path
  }

  /** The new cookie replaces the one with its name, host and path. */
  function Receive(jar: set<Cookie>, line: string, host: string, defaultPath: string, now: int): set<Cookie> {
    match Parse(line, host, defaultPath, now)
    case None => jar
    case Some(c) => (set d <- jar | !SameKey(d, c)) + {c}
  }

  // ------------------------------------------------------------- sections 5.1.4 and 5.4

  predicate PathMatches(requestPath: string, cookiePath: string) {
    requestPath == cookiePath ||
    (cookiePath != "" && cookiePath < requestPath &&
     (cookiePath[|cookiePath| - 1] == '/' || requestPath[|cookiePath|] == '/'))
  }

  predicate IsSent(c: Cookie, host: string, path: string, https: bool, now: int) {
    c.host == host && PathMatches(path, c.path) && (c.secure ==> https) && (c.expiry.Some? ==> now < c.expiry.value)
  }

  function Pairs(cookies: seq<Cookie>): seq<string> {
    seq(|cookies|, i requires 0 <= i < |cookies| => cookies[i].name + "=" + cookies[i].value)
  }

  /** The cookies to be sent, in whatever order the browser lists them. */
  ghost predicate Sends(jar: set<Cookie>, host: string, path: string, https: bool, now: int, header: string) {
    exists order: seq<Cookie> :: Lists(jar, host, path, https, now, order) && header == CookieHeader.Join(Pairs(order))
  }

  ghost predicate Lists(jar: set<Cookie>, host: string, path: string, https: bool, now: int, order: seq<Cookie>) {
    forall c :: c in order <==> c in jar && IsSent(c, host, path, https, now)
  }

  predicate Recognisable(c: Cookie) {
    CookieHeader.HasGhostSessionCookie(c.name + "=" + c.value)
  }

  /** The proxy recognises the header exactly when one of the cookies sent is recognisable by itself. */
  lemma HeaderRecognisedIff(jar: set<Cookie>, host: string, path: string, https: bool, now: int, header: string)
    requires Sends(jar, host, path, https, now, header)
    ensures CookieHeader.HasGhostSessionCookie(header) <==>
            exists c <- jar :: IsSent(c, host, path, https, now) && Recognisable(c)
  {
    hide CookieHeader.HasGhostSessionCookie, IsSent;
    var order: seq<Cookie> :| Lists(jar, host, path, https, now, order) && header == CookieHeader.Join(Pairs(order));
    CookieHeader.RecognisedAmong(Pairs(order));
    forall i | 0 <= i < |order| ensures order[i] in order && Pairs(order)[i] in Pairs(order) {
    }
    forall p <- Pairs(order) ensures exists i :: 0 <= i < |order| && p == order[i].name + "=" + order[i].value {
    }
  }

  // ------------------------------------------------------------- attribute lists

  function Listing(avs: seq<string>): string {
    if avs == [] then "" else [';'] + avs[0] + Listing(avs[1..])
  }

  lemma {:induction false} AttributesOfListing(pair: string, avs: seq<string>)
    requires ';' !in pair && forall av <- avs :: ';' !in av
    ensures Attributes(pair + Listing(avs)) == seq(|avs|, i requires 0 <= i < |avs| => AttributeOf(avs[i]))
    decreases |avs|
  {
    hide AttributeOf;
    var line := pair + Listing(avs);
    if avs == [] {
      assert line == pair;
    } else {
      var rest := avs[0] + Listing(avs[1..]);
      assert line == pair + [';'] + rest;
      CutAt(pair, ';', rest);
      BeforeListing(avs[0], avs[1..]);
      AttributesOfListing(avs[0], avs[1..]);
    }
  }

  lemma BeforeListing(pair: string, avs: seq<string>)
    requires ';' !in pair
    ensures Before(pair + Listing(avs), ';') == pair
  {
    if avs == [] {
      assert pair + Listing(avs) == pair;
      CutNothing(pair, ';');
    } else {
      assert pair + Listing(avs) == pair + [';'] + (avs[0] + Listing(avs[1..]));
      CutAt(pair, ';', avs[0] + Listing(avs[1..]));
    }
  }

  /** One attribute as it is printed: a space, the name and perhaps a value. */
  lemma PrintedAttribute(name: string, value: string)
    requires name != "" && '=' !in name && WSP !! (set c <- name) && WSP !! (set c <- value)
    ensures AttributeOf([' '] + name + ['='] + value) == Attribute(Lower(name), value)
    ensures AttributeOf([' '] + name) == Attribute(Lower(name), "")
  {
    CutAt([' '] + name, '=', value);
    CutNothing([' '] + name, '=');
    TrimFront(' ', name, WSP);
    assert name[0] in name && name[|name| - 1] in name;
    TrimNothing(name, WSP);
    assert value != "" ==> value[0] in value && value[|value| - 1] in value;
    TrimNothing(value, WSP);
    TrimNothing("", WSP);
  }
}
