/**
 hasGhostSessionCookie: the Cookie header is cut at every ';', each part is trimmed and cut at
 its first '=', and the part counts when its name is the cookie's and its value is printable,
 as net/http reads cookies.
 */
module CookieHeader {
  import opened Text

  const GHOST_COOKIE := "ghost-admin-api-session"
  const SPACES := {' ', '\t', '\n', '\r'}

  predicate ValueChar(c: char) {
    ' ' <= c <= '~' && c != '"' && c != ';' && c != '\\'
  }

  predicate ValueText(v: string) {
    forall c <- v :: ValueChar(c)
  }

  /** A value may stand in double quotes. */
  predicate ReadableValue(v: string) {
    if |v| > 1 && v[0] == '"' && v[|v| - 1] == '"' then ValueText(v[1..|v| - 1]) else ValueText(v)
  }

  /** The trimmed, non-empty parts between semicolons. */
  function Parts(line: string, ws: set<char>): seq<string>
    decreases |line|
  {
    if ';' in line then Kept(Before(line, ';'), ws) + Parts(After(line, ';'), ws) else Kept(line, ws)
  }

  function Kept(part: string, ws: set<char>): seq<string> {
    var t := Trim(part, ws);
    if t == "" then [] else [t]
  }

  /** The part is a cookie of that name which net/http would return. */
  predicate Names(part: string, name: string, ws: set<char>) {
    Trim(Before(part, '='), ws) == name && ReadableValue(After(part, '='))
  }

  /** Some part of the list counts. */
  predicate Listed(parts: seq<string>, name: string, ws: set<char>) {
    exists part <- parts :: Names(part, name, ws)
  }

  /** Request.Cookie(name) finds a cookie; `name` is a token. */
  predicate HasCookie(header: string, name: string, ws: set<char>) {
    header != "" && Listed(Parts(Trim(header, ws), ws), name, ws)
  }

  predicate HasGhostSessionCookie(header: string) {
    HasCookie(header, GHOST_COOKIE, SPACES)
  }

  // ------------------------------------------------------------- recognition and joining

  lemma {:induction false} PartsOfJoin(a: string, b: string, ws: set<char>)
    ensures Parts(a + [';'] + b, ws) == Parts(a, ws) + Parts(b, ws)
    decreases |a|
  {
    if ';' !in a {
      CutAt(a, ';', b);
    } else {
      CutGlue(a, ';');
      var first, rest := Before(a, ';'), After(a, ';');
      var tail := rest + [';'] + b;
      assert a + [';'] + b == first + [';'] + tail;
      CutAt(first, ';', tail);
      PartsOfJoin(rest, b, ws);
    }
  }

  lemma SpaceInFront(c: char, line: string, ws: set<char>)
    requires c in ws && c != ';'
    ensures Parts([c] + line, ws) == Parts(line, ws)
  {
    hide Trim;
    if ';' in line {
      CutGlue(line, ';');
      var first, rest := Before(line, ';'), After(line, ';');
      assert [c] + line == ([c] + first) + [';'] + rest;
      CutAt([c] + first, ';', rest);
      TrimFront(c, first, ws);
    } else {
      TrimFront(c, line, ws);
    }
  }

  lemma {:induction false} SpaceBehind(line: string, c: char, ws: set<char>)
    requires c in ws && c != ';'
    ensures Parts(line + [c], ws) == Parts(line, ws)
    decreases |line|
  {
    if ';' in line {
      CutGlue(line, ';');
      var first, rest := Before(line, ';'), After(line, ';');
      assert line + [c] == first + [';'] + (rest + [c]);
      CutAt(first, ';', rest + [c]);
      SpaceBehind(rest, c, ws);
    } else {
      TrimBack(line, c, ws);
    }
  }

  lemma {:induction false} TrimLeftKeepsParts(line: string, ws: set<char>)
    requires ';' !in ws
    ensures Parts(TrimLeft(line, ws), ws) == Parts(line, ws)
  {
    hide Parts;
    if line != "" && line[0] in ws {
      TrimLeftKeepsParts(line[1..], ws);
      SpaceInFront(line[0], line[1..], ws);
      assert [line[0]] + line[1..] == line;
    }
  }

  lemma {:induction false} TrimRightKeepsParts(line: string, ws: set<char>)
    requires ';' !in ws
    ensures Parts(TrimRight(line, ws), ws) == Parts(line, ws)
  {
    hide Parts;
    if line != "" && line[|line| - 1] in ws {
      var front := line[..|line| - 1];
      TrimRightKeepsParts(front, ws);
      SpaceBehind(front, line[|line| - 1], ws);
      assert front + [line[|line| - 1]] == line;
    }
  }

  lemma FoundIffListed(header: string, name: string, ws: set<char>)
    requires ';' !in ws
    ensures HasCookie(header, name, ws) <==> Listed(Parts(header, ws), name, ws)
  {
    TrimLeftKeepsParts(header, ws);
    TrimRightKeepsParts(TrimLeft(header, ws), ws);
    assert Parts("", ws) == [];
  }

  lemma ListedInEither(a: seq<string>, b: seq<string>, name: string, ws: set<char>)
    ensures Listed(a + b, name, ws) <==> Listed(a, name, ws) || Listed(b, name, ws)
  {
  }

  lemma FoundInEither(a: string, b: string, name: string, ws: set<char>)
    requires ' ' in ws && ';' !in ws
    ensures HasCookie(a + "; " + b, name, ws) <==> HasCookie(a, name, ws) || HasCookie(b, name, ws)
  {
    hide *;
    FoundIffListed(a, name, ws);
    FoundIffListed(b, name, ws);
    FoundIffListed(a + "; " + b, name, ws);
    assert a + "; " + b == a + [';'] + ([' '] + b);
    PartsOfJoin(a, [' '] + b, ws);
    SpaceInFront(' ', b, ws);
    ListedInEither(Parts(a, ws), Parts(b, ws), name, ws);
  }

  /** Recognition distributes over joining two headers with "; ". */
  lemma RecognitionDistributes(a: string, b: string)
    ensures HasGhostSessionCookie(a + "; " + b) <==> HasGhostSessionCookie(a) || HasGhostSessionCookie(b)
  {
    FoundInEither(a, b, GHOST_COOKIE, SPACES);
  }

  /** A list of pairs as a user agent writes it into one header. */
  function Join(pairs: seq<string>): string {
    if |pairs| == 0 then ""
    else if |pairs| == 1 then pairs[0]
    else pairs[0] + "; " + Join(pairs[1..])
  }

  predicate Among(pairs: seq<string>, name: string, ws: set<char>) {
    exists p <- pairs :: HasCookie(p, name, ws)
  }

  lemma {:induction false} FoundAmong(pairs: seq<string>, name: string, ws: set<char>)
    requires ' ' in ws && ';' !in ws
    ensures HasCookie(Join(pairs), name, ws) <==> Among(pairs, name, ws)
  {
    hide HasCookie, Among;
    if |pairs| > 1 {
      FoundInEither(pairs[0], Join(pairs[1..]), name, ws);
      FoundAmong(pairs[1..], name, ws);
      HeadOrTail(pairs, name, ws);
    } else {
      AtMostOne(pairs, name, ws);
    }
  }

  lemma AtMostOne(pairs: seq<string>, name: string, ws: set<char>)
    requires |pairs| <= 1
    ensures HasCookie(Join(pairs), name, ws) <==> Among(pairs, name, ws)
  {
    hide HasCookie;
    EmptyHeader(name, ws);
    if |pairs| == 1 {
      assert pairs == [pairs[0]];
    }
  }

  lemma EmptyHeader(name: string, ws: set<char>)
    ensures !HasCookie("", name, ws)
  {
  }

  lemma HeadOrTail(pairs: seq<string>, name: string, ws: set<char>)
    requires pairs != []
    ensures Among(pairs, name, ws) <==> HasCookie(pairs[0], name, ws) || Among(pairs[1..], name, ws)
  {
    hide HasCookie;
    assert pairs == [pairs[0]] + pairs[1..];
  }

  /** One recognised pair is enough, wherever it stands; and nothing else makes a header recognised. */
  lemma RecognisedAmong(pairs: seq<string>)
    ensures HasGhostSessionCookie(Join(pairs)) <==> exists p <- pairs :: HasGhostSessionCookie(p)
  {
    FoundAmong(pairs, GHOST_COOKIE, SPACES);
  }

  /** Section 5.6.2 of RFC 9110. */
  predicate TokenChar(c: char) {
    '0' <= c <= '9' || 'A' <= c <= 'Z' || 'a' <= c <= 'z' ||
    c in {'!', '#', '$', '%', '&', '\'', '*', '+', '-', '.', '^', '_', '`', '|', '~'}
  }

  predicate Token(name: string) {
    name != "" && forall c <- name :: TokenChar(c)
  }

  /** A value that ends the pair: printable, without semicolons, and not ending in a space. */
  predicate PairValue(value: string) {
    (forall c <- value :: ' ' <= c <= '~' && c != ';') && (value == "" || value[|value| - 1] != ' ')
  }

  predicate NoQuotes(value: string) {
    '"' !in value && '\\' !in value
  }

  /** Neither quotes nor backslashes, but for a pair of quotes around the whole. */
  predicate Unquoted(value: string) {
    NoQuotes(value) ||
    (|value| > 1 && value[0] == '"' && value[|value| - 1] == '"' && NoQuotes(value[1..|value| - 1]))
  }

  lemma TokenIsPlain(name: string)
    requires Token(name)
    ensures forall c <- name :: c !in SPACES && c != '=' && c != ';'
  {
  }

  lemma PairParts(name: string, value: string)
    requires Token(name) && PairValue(value)
    ensures var pair := name + ['='] + value;
            Parts(pair, SPACES) == [pair] && Trim(Before(pair, '='), SPACES) == name && After(pair, '=') == value
  {
    var pair := name + ['='] + value;
    TokenIsPlain(name);
    assert name[0] in name && name[|name| - 1] in name;
    assert value != "" ==> value[|value| - 1] in value;
    TrimNothing(pair, SPACES);
    assert ';' !in pair;
    CutAt(name, '=', value);
    TrimNothing(name, SPACES);
  }

  /** A pair is recognised exactly when its name is the cookie's and its value is one that net/http reads. */
  lemma PairRecognisedIff(name: string, value: string)
    requires Token(name) && PairValue(value)
    ensures HasGhostSessionCookie(name + "=" + value) <==> name == "ghost-admin-api-session" && Unquoted(value)
  {
    hide Trim, Parts, Before, After, Token, HasCookie;
    var pair := name + ['='] + value;
    assert name + "=" + value == pair;
    PairParts(name, value);
    FoundIffListed(pair, GHOST_COOKIE, SPACES);
    assert Listed([pair], GHOST_COOKIE, SPACES) <==> Names(pair, GHOST_COOKIE, SPACES);
    ReadableIffUnquoted(value);
  }

  lemma ReadableIffUnquoted(value: string)
    requires PairValue(value)
    ensures ReadableValue(value) <==> Unquoted(value)
  {
    TextIffNoQuotes(value);
    if |value| > 1 && value[0] == '"' && value[|value| - 1] == '"' {
      var inner := value[1..|value| - 1];
      forall c <- inner ensures ' ' <= c <= '~' && c != ';' {
        assert c in value;
      }
      TextIffNoQuotes(inner);
    }
  }

  lemma TextIffNoQuotes(value: string)
    requires forall c <- value :: ' ' <= c <= '~' && c != ';'
    ensures ValueText(value) <==> NoQuotes(value)
  {
  }

  /** The texts of the pairs. */
  function PairTexts(pairs: seq<(string, string)>): seq<string> {
    seq(|pairs|, i requires 0 <= i < |pairs| => pairs[i].0 + "=" + pairs[i].1)
  }

  /** In any header of pairs, recognition is that some pair has the cookie's name and a readable value. */
  lemma HeaderRecognisedByName(pairs: seq<(string, string)>)
    requires forall p <- pairs :: Token(p.0) && PairValue(p.1)
    ensures HasGhostSessionCookie(Join(PairTexts(pairs))) <==>
            exists p <- pairs :: p.0 == "ghost-admin-api-session" && Unquoted(p.1)
  {
    hide HasGhostSessionCookie, Join, Unquoted, Token, PairValue;
    var texts := PairTexts(pairs);
    RecognisedAmong(texts);
    forall i | 0 <= i < |pairs|
      ensures texts[i] in texts && pairs[i] in pairs
      ensures HasGhostSessionCookie(texts[i]) <==> pairs[i].0 == "ghost-admin-api-session" && Unquoted(pairs[i].1)
    {
      PairRecognisedIff(pairs[i].0, pairs[i].1);
    }
  }

  /** White space around a header changes nothing. */
  lemma SpacesDoNotMatter(c: char, header: string)
    requires c == ' ' || c == '\t' || c == '\n' || c == '\r'
    ensures HasGhostSessionCookie([c] + header) <==> HasGhostSessionCookie(header)
    ensures HasGhostSessionCookie(header + [c]) <==> HasGhostSessionCookie(header)
  {
    hide HasCookie, Listed, Parts;
    FoundIffListed([c] + header, GHOST_COOKIE, SPACES);
    FoundIffListed(header + [c], GHOST_COOKIE, SPACES);
    FoundIffListed(header, GHOST_COOKIE, SPACES);
    SpaceInFront(c, header, SPACES);
    SpaceBehind(header, c, SPACES);
  }

  lemma PlainPairFound(name: string, value: string, ws: set<char>)
    requires name != "" && '=' !in name && ';' !in name && ws !! (set c <- name) && ';' !in ws
    requires value != "" && ValueText(value) && ws !! (set c <- value) && value[0] != '"'
    ensures HasCookie(name + "=" + value, name, ws)
  {
    var pair := name + ['='] + value;
    assert name[0] in name && value[|value| - 1] in value && name[|name| - 1] in name;
    assert ';' !in value;
    TrimNothing(pair, ws);
    assert Parts(pair, ws) == [pair];
    CutAt(name, '=', value);
    TrimNothing(name, ws);
    assert Names(pair, name, ws) && pair in Parts(pair, ws);
    FoundIffListed(pair, name, ws);
  }

  /** A pair whose value holds no space, quote, semicolon or backslash is recognised. */
  lemma PlainPairRecognised(value: string)
    requires value != "" && ValueText(value) && ' ' !in value
    ensures HasGhostSessionCookie(GHOST_COOKIE + "=" + value)
  {
    assert value[0] in value;
    PlainPairFound(GHOST_COOKIE, value, SPACES);
  }
}
