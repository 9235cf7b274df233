/**
 The signing secret as it is loaded from the settings table: unwrapped when the column holds a JSON
 string (section 7 of RFC 8259), used as it stands otherwise. Text is a sequence of Unicode characters.
 */
module SettingsSecret {
  import opened Wrappers
  import opened Text

  const JSON_WS := {' ', '\t', '\n', '\r'}
  const REPLACEMENT := 0xFFFD as char

  // ------------------------------------------------------------- escapes

  function HexDigitValue(c: char): Option<nat> {
    if '0' <= c <= '9' then Some(c as int - 48)
    else if 'a' <= c <= 'f' then Some(c as int - 87)
    else if 'A' <= c <= 'F' then Some(c as int - 55)
    else None
  }

  predicate IsHex4(h: string) {
    |h| == 4 && forall c <- h :: HexDigitValue(c).Some?
  }

  function Hex4(h: string): (u: nat)
    requires IsHex4(h)
    ensures u < 0x1_0000
  {
    HexStep(HexStep(HexStep(HexStep(0, h[0], 1), h[1], 16), h[2], 256), h[3], 4096)
  }

  function HexStep(u: nat, c: char, below: nat): (v: nat)
    requires HexDigitValue(c).Some? && u < below
    ensures v < 16 * below
  {
    var d := HexDigitValue(c).value;
    assert d < 16;
    16 * u + d
  }

  /** The UTF-16 unit of a leading \uXXXX. */
  function Unit(s: string): (u: Option<nat>)
    ensures u.Some? ==> u.value < 0x1_0000 && |s| >= 6
  {
    if |s| >= 6 && s[0] == '\\' && s[1] == 'u' && IsHex4(s[2..6]) then Some(Hex4(s[2..6])) else None
  }

  predicate IsHigh(u: nat) {
    0xD800 <= u < 0xDC00
  }

  predicate IsLow(u: nat) {
    0xDC00 <= u < 0xE000
  }

  function Combine(high: nat, low: nat): char
    requires IsHigh(high) && IsLow(low)
  {
    (0x1_0000 + (high - 0xD800) * 0x400 + (low - 0xDC00)) as char
  }

  function Short(e: char): Option<char> {
    match e
    case '"' => Some('"')
    case '\\' => Some('\\')
    case '/' => Some('/')
    case 'b' => Some(8 as char)
    case 'f' => Some(12 as char)
    case 'n' => Some('\n')
    case 'r' => Some('\r')
    case 't' => Some('\t')
    case _ => None
  }

  predicate Unescaped(c: char) {
    c >= ' ' && c != '"' && c != '\\'
  }

  // ------------------------------------------------------------- the parser

  function Push(c: char, r: Option<(string, string)>): Option<(string, string)> {
    match r case None => None case Some(p) => Some(([c] + p.0, p.1))
  }

  /** After the opening quote: the decoded text and what follows the closing quote. */
  function ParseBody(s: string): Option<(string, string)>
    decreases |s|
  {
    if s == "" then None
    else if s[0] == '"' then Some(("", s[1..]))
    else if s[0] == '\\' then
      if Unit(s).Some? then
        var u := Unit(s).value;
        if IsHigh(u) && Unit(s[6..]).Some? && IsLow(Unit(s[6..]).value)
        then Push(Combine(u, Unit(s[6..]).value), ParseBody(s[12..]))
        else Push(if IsHigh(u) || IsLow(u) then REPLACEMENT else u as char, ParseBody(s[6..]))
      else if |s| >= 2 && Short(s[1]).Some? then Push(Short(s[1]).value, ParseBody(s[2..]))
      else None
    else if Unescaped(s[0]) then Push(s[0], ParseBody(s[1..]))
    else None
  }

  /** json.Unmarshal into a string: the value, if the whole text is one JSON string. */
  function Unquote(raw: string): Option<string> {
    var t := TrimLeft(raw, JSON_WS);
    if t == "" || t[0] != '"' then None
    else
      match ParseBody(t[1..])
      case None => None
      case Some((value, rest)) => if TrimLeft(rest, JSON_WS) == "" then Some(value) else None
  }

  function LoadedSecret(raw: string): string {
    match Unquote(raw)
    case None => raw
    case Some(value) => if value == "" then raw else value
  }

  /** NewSessionStore: `raw` is the column's text. */
  method LoadSecret(raw: string) returns (r: Result<string, string>)
    ensures r.Err? <==> raw == ""
    ensures r.Ok? ==> r.value == LoadedSecret(raw)
  {
    if raw == "" {
      return Err("admin_session_secret setting is empty");
    }
    var secret := raw;
    var unquoted := Unquote(raw);
    if unquoted.Some? && unquoted.value != "" {
      secret := unquoted.value;
    }
    r := Ok(secret);
  }

  // ------------------------------------------------------------- the grammar

  function Flat(pieces: seq<string>): string {
    if pieces == [] then "" else pieces[0] + Flat(pieces[1..])
  }

  predicate Hexadecimal(c: char) {
    '0' <= c <= '9' || 'a' <= c <= 'f' || 'A' <= c <= 'F'
  }

  /** One character of a JSON string as section 7 allows it; a pair of \u escapes is two pieces. */
  predicate Section7(p: string) {
    (|p| == 1 && p[0] as int >= 0x20 && p[0] as int != 0x22 && p[0] as int != 0x5C) ||
    (|p| == 2 && p[0] as int == 0x5C && p[1] in {'"', '\\', '/', 'b', 'f', 'n', 'r', 't'}) ||
    (|p| == 6 && p[0] as int == 0x5C && p[1] == 'u' &&
     Hexadecimal(p[2]) && Hexadecimal(p[3]) && Hexadecimal(p[4]) && Hexadecimal(p[5]))
  }

  /** What the parser takes for such a character. */
  predicate LegalPiece(p: string) {
    (|p| == 1 && Unescaped(p[0])) ||
    (|p| == 2 && p[0] == '\\' && Short(p[1]).Some?) ||
    (|p| == 6 && Unit(p).Some?)
  }

  lemma LegalIffSection7(p: string)
    ensures LegalPiece(p) <==> Section7(p)
  {
    if |p| == 6 {
      IsHex4Iff(p[2..6]);
    }
  }

  lemma IsHex4Iff(h: string)
    requires |h| == 4
    ensures IsHex4(h) <==> Hexadecimal(h[0]) && Hexadecimal(h[1]) && Hexadecimal(h[2]) && Hexadecimal(h[3])
  {
    assert h[0] in h && h[1] in h && h[2] in h && h[3] in h;
    assert forall c <- h :: c == h[0] || c == h[1] || c == h[2] || c == h[3];
  }

  /** Spaces, tabs, line feeds and carriage returns. */
  predicate Blank(s: string) {
    forall c <- s :: c as int == 0x20 || c as int == 0x09 || c as int == 0x0A || c as int == 0x0D
  }

  lemma BlankIff(s: string)
    ensures Blank(s) <==> forall c <- s :: c in JSON_WS
  {
  }

  /** The text is one JSON string between blanks. */
  ghost predicate IsJsonString(text: string) {
    exists before: string, pieces: seq<string>, after: string :: Written(text, before, pieces, after)
  }

  ghost predicate Written(text: string, before: string, pieces: seq<string>, after: string) {
    Blank(before) && Blank(after) && (forall p <- pieces :: Section7(p)) &&
    text == before + Quoted(pieces, after)
  }

  /** The pieces, their closing quote and what follows. */
  function Closing(pieces: seq<string>, after: string): string {
    Flat(pieces) + ['"'] + after
  }

  function Quoted(pieces: seq<string>, after: string): string {
    ['"'] + Closing(pieces, after)
  }

  // ------------------------------------------------------------- the parser accepts the grammar

  lemma {:induction false} BlankTrims(before: string, s: string, ws: set<char>)
    requires (forall c <- before :: c in ws) && (s == "" || s[0] !in ws)
    ensures TrimLeft(before + s, ws) == s
  {
    if before == "" {
      assert before + s == s;
    } else {
      assert (before + s)[1..] == before[1..] + s;
      assert before[0] in before;
      BlankTrims(before[1..], s, ws);
    }
  }

  lemma TrimLeftStep(s: string, ws: set<char>)
    ensures TrimLeft(s, ws) == if s != "" && s[0] in ws then TrimLeft(s[1..], ws) else s
  {
  }

  lemma {:induction false} TrimsBlank(s: string, ws: set<char>)
    ensures var t := TrimLeft(s, ws); (forall c <- s[..|s| - |t|] :: c in ws) && (t == "" || t[0] !in ws)
  {
    hide TrimLeft;
    TrimLeftStep(s, ws);
    if s != "" && s[0] in ws {
      TrimsBlank(s[1..], ws);
      var t := TrimLeft(s[1..], ws);
      var front := s[1..][..|s| - 1 - |t|];
      assert s[..|s| - |t|] == [s[0]] + front;
      AllAhead(s[0], front, ws);
    } else {
      assert s[..0] == "";
    }
  }

  lemma AllAhead(c: char, front: string, ws: set<char>)
    requires c in ws && forall d <- front :: d in ws
    ensures forall d <- [c] + front :: d in ws
  {
  }

  lemma UnitOfFront(p: string, rest: string)
    requires |p| == 6
    ensures Unit(p + rest) == Unit(p)
  {
    assert (p + rest)[2..6] == p[2..6];
  }

  lemma {:induction false} BodyAccepts(pieces: seq<string>, rest: string)
    requires forall p <- pieces :: LegalPiece(p)
    ensures var r := ParseBody(Closing(pieces, rest)); r.Some? && r.value.1 == rest
    decreases |pieces|, 2
  {
    if pieces == [] {
      EmptyBody(rest);
      assert Closing(pieces, rest) == ['"'] + rest;
    } else {
      BodyAccepts(pieces[1..], rest);
      PieceAccepted(pieces, rest);
    }
  }

  lemma EmptyBody(rest: string)
    ensures ParseBody(['"'] + rest) == Some(("", rest))
  {
  }

  lemma ClosingSplits(pieces: seq<string>, rest: string)
    requires pieces != []
    ensures Closing(pieces, rest) == pieces[0] + Closing(pieces[1..], rest)
  {
  }

  lemma PieceAccepted(pieces: seq<string>, rest: string)
    requires pieces != [] && forall p <- pieces :: LegalPiece(p)
    requires var r := ParseBody(Closing(pieces[1..], rest)); r.Some? && r.value.1 == rest
    ensures var r := ParseBody(Closing(pieces, rest)); r.Some? && r.value.1 == rest
    decreases |pieces|, 1
  {
    hide Closing;
    ClosingSplits(pieces, rest);
    var p, tail, s := pieces[0], Closing(pieces[1..], rest), Closing(pieces, rest);
    assert LegalPiece(p);
    if |p| == 6 {
      UnitOfFront(p, tail);
      assert s[6..] == tail;
      if Unit(tail).Some? {
        PairAccepted(pieces, rest);
      }
    } else if |p| == 2 {
      assert s[2..] == tail && s[1] == p[1];
    } else {
      assert s[1..] == tail;
    }
  }

  /** When the second piece is a \u escape the parser may take it with the first. */
  lemma PairAccepted(pieces: seq<string>, rest: string)
    requires pieces != [] && (forall p <- pieces :: LegalPiece(p)) && Unit(Closing(pieces[1..], rest)).Some?
    ensures var r := ParseBody(Closing(pieces[1..], rest)[6..]); r.Some? && r.value.1 == rest
    decreases |pieces|, 0
  {
    var tail := Closing(pieces[1..], rest);
    if |pieces| > 1 {
      var p := pieces[1];
      assert pieces[1..][1..] == pieces[2..] && pieces[1..][0] == p;
      ClosingSplits(pieces[1..], rest);
      assert LegalPiece(p);
      BodyAccepts(pieces[2..], rest);
      assert |p| == 6;
      assert tail[6..] == Closing(pieces[2..], rest);
    }
  }

  // ------------------------------------------------------------- and nothing else

  lemma {:induction false} BodySound(s: string) returns (pieces: seq<string>)
    requires ParseBody(s).Some?
    ensures (forall p <- pieces :: LegalPiece(p)) && s == Closing(pieces, ParseBody(s).value.1)
    decreases |s|
  {
    hide LegalPiece;
    if s[0] == '"' {
      pieces := [];
      assert s == [s[0]] + s[1..];
    } else {
      var first, n := FirstPieces(s);
      var more := BodySound(s[n..]);
      pieces := first + more;
      FlatOfBoth(first, more);
      assert s == s[..n] + s[n..];
    }
  }

  /** What one turn of the parser consumes is one legal piece, or two. */
  lemma FirstPieces(s: string) returns (first: seq<string>, n: nat)
    requires ParseBody(s).Some? && s[0] != '"'
    ensures 0 < n <= |s| && (forall p <- first :: LegalPiece(p)) && Flat(first) == s[..n]
    ensures ParseBody(s[n..]).Some? && ParseBody(s[n..]).value.1 == ParseBody(s).value.1
  {
    if s[0] != '\\' {
      n := 1;
      first := [s[..1]];
      FlatOfOne(s[..1]);
    } else if Unit(s).None? {
      n := 2;
      first := [s[..2]];
      FlatOfOne(s[..2]);
    } else {
      UnitOfSlice(s);
      if IsHigh(Unit(s).value) && Unit(s[6..]).Some? && IsLow(Unit(s[6..]).value) {
        n := 12;
        first := PairPieces(s);
      } else {
        n := 6;
        first := [s[..6]];
        FlatOfOne(s[..6]);
      }
    }
  }

  lemma PairPieces(s: string) returns (first: seq<string>)
    requires Unit(s).Some? && Unit(s[6..]).Some?
    ensures |s| >= 12 && (forall p <- first :: LegalPiece(p)) && Flat(first) == s[..12]
  {
    UnitOfSlice(s);
    UnitOfSlice(s[6..]);
    hide LegalPiece;
    assert s[6..][..6] == s[6..12];
    first := [s[..6], s[6..12]];
    FlatOfOne(s[6..12]);
    assert first[1..] == [s[6..12]];
    assert s[..6] + s[6..12] == s[..12];
  }

  lemma UnitOfSlice(s: string)
    requires Unit(s).Some?
    ensures LegalPiece(s[..6])
  {
    UnitOfFront(s[..6], s[6..]);
    assert s == s[..6] + s[6..];
  }

  lemma FlatOfOne(p: string)
    ensures Flat([p]) == p
  {
    assert Flat([p]) == p + Flat([]);
  }

  lemma {:induction false} FlatOfBoth(a: seq<string>, b: seq<string>)
    ensures Flat(a + b) == Flat(a) + Flat(b)
  {
    if a == [] {
      assert a + b == b;
    } else {
      assert (a + b)[1..] == a[1..] + b;
      FlatOfBoth(a[1..], b);
    }
  }

  lemma TrimmedText(before: string, pieces: seq<string>, after: string)
    requires Blank(before) && Blank(after)
    ensures TrimLeft(before + Quoted(pieces, after), JSON_WS) == Quoted(pieces, after) && TrimLeft(after, JSON_WS) == ""
  {
    hide TrimLeft, Closing;
    BlankTrims(before, Quoted(pieces, after), JSON_WS);
    BlankTrims(after, "", JSON_WS);
    assert after + "" == after;
  }

  /** Unquoting a written text is parsing its body. */
  lemma UnquoteWritten(before: string, pieces: seq<string>, after: string)
    requires Blank(before) && Blank(after)
    ensures ParseBody(Closing(pieces, after)).Some? && ParseBody(Closing(pieces, after)).value.1 == after ==>
              Unquote(before + Quoted(pieces, after)) == Some(ParseBody(Closing(pieces, after)).value.0)
  {
    hide TrimLeft, ParseBody, Closing;
    TrimmedText(before, pieces, after);
    assert Quoted(pieces, after)[1..] == Closing(pieces, after);
  }

  lemma UnquotedIsWritten(text: string)
    requires Unquote(text).Some?
    ensures IsJsonString(text)
  {
    hide TrimLeft, ParseBody, LegalPiece, Section7, Flat;
    var t := TrimLeft(text, JSON_WS);
    TrimsBlank(text, JSON_WS);
    var before := text[..|text| - |t|];
    var pieces := BodySound(t[1..]);
    forall p <- pieces { LegalIffSection7(p); }
    var after := ParseBody(t[1..]).value.1;
    TrimsBlank(after, JSON_WS);
    assert after[..|after|] == after;
    BlankIff(before);
    BlankIff(after);
    assert t == [t[0]] + t[1..] == Quoted(pieces, after) && text == before + t;
    assert Written(text, before, pieces, after);
  }

  /** The unwrapping applies to JSON strings and to nothing else. */
  lemma UnquotesIffJsonString(text: string)
    ensures Unquote(text).Some? <==> IsJsonString(text)
  {
    hide Unquote, ParseBody, Quoted, Closing, LegalPiece, Section7;
    if IsJsonString(text) {
      var before: string, pieces: seq<string>, after: string :| Written(text, before, pieces, after);
      forall p <- pieces { LegalIffSection7(p); }
      BodyAccepts(pieces, after);
      UnquoteWritten(before, pieces, after);
    }
    if Unquote(text).Some? {
      UnquotedIsWritten(text);
    }
  }

  // ------------------------------------------------------------- loading inverts storing

  ghost predicate DigitIs(c: char, d: nat) {
    d < 16 && ("0123456789abcdef"[d] == c || "0123456789ABCDEF"[d] == c)
  }

  /** The text is \u and four digits of this number to the base 16. */
  ghost predicate UnitIs(p: string, u: int) {
    |p| == 6 && p[0] as int == 0x5C && p[1] == 'u' &&
    exists d1: nat, d2: nat, d3: nat, d4: nat ::
      DigitIs(p[2], d1) && DigitIs(p[3], d2) && DigitIs(p[4], d3) && DigitIs(p[5], d4) &&
      u == 0x1000 * d1 + 0x100 * d2 + 0x10 * d3 + d4
  }

  ghost predicate PairIs(p: string, high: int, low: int, c: char) {
    |p| == 12 && UnitIs(p[..6], high) && UnitIs(p[6..], low) && 0xD800 <= high < 0xDC00 <= low < 0xE000 &&
    c as int == 0x1_0000 + (high - 0xD800) * 0x400 + (low - 0xDC00)
  }

  predicate ShortIs(e: char, code: int) {
    (e == '"' && code == 0x22) || (e == '\\' && code == 0x5C) || (e == '/' && code == 0x2F) ||
    (e == 'b' && code == 0x08) || (e == 'f' && code == 0x0C) || (e == 'n' && code == 0x0A) ||
    (e == 'r' && code == 0x0D) || (e == 't' && code == 0x09)
  }

  /** The ways section 7 allows for writing one character. */
  ghost predicate Writes(p: string, c: char) {
    (p == [c] && c as int >= 0x20 && c as int != 0x22 && c as int != 0x5C) ||
    (|p| == 2 && p[0] as int == 0x5C && ShortIs(p[1], c as int)) ||
    UnitIs(p, c as int) ||
    exists high: int, low: int :: PairIs(p, high, low, c)
  }

  lemma DigitIsValue(c: char, d: nat)
    ensures DigitIs(c, d) <==> HexDigitValue(c) == Some(d)
  {
  }

  lemma UnitIsValue(p: string, u: nat)
    requires |p| == 6
    ensures UnitIs(p, u) <==> Unit(p) == Some(u)
  {
    hide DigitIs, HexDigitValue, Unit, IsHex4, Hex4;
    UnitIsHex4(p, u);
    Hex4Splits(p[2..6]);
    if UnitIs(p, u) {
      var d1: nat, d2: nat, d3: nat, d4: nat :|
        DigitIs(p[2], d1) && DigitIs(p[3], d2) && DigitIs(p[4], d3) && DigitIs(p[5], d4) &&
        u == 0x1000 * d1 + 0x100 * d2 + 0x10 * d3 + d4;
      DigitIsValue(p[2], d1);
      DigitIsValue(p[3], d2);
      DigitIsValue(p[4], d3);
      DigitIsValue(p[5], d4);
    }
    if Unit(p) == Some(u) {
      DigitIsValue(p[2], HexDigitValue(p[2]).value);
      DigitIsValue(p[3], HexDigitValue(p[3]).value);
      DigitIsValue(p[4], HexDigitValue(p[4]).value);
      DigitIsValue(p[5], HexDigitValue(p[5]).value);
    }
  }

  lemma Hex4Splits(h: string)
    requires |h| == 4
    ensures IsHex4(h) <==>
              HexDigitValue(h[0]).Some? && HexDigitValue(h[1]).Some? &&
              HexDigitValue(h[2]).Some? && HexDigitValue(h[3]).Some?
    ensures IsHex4(h) ==>
              Hex4(h) == 0x1000 * HexDigitValue(h[0]).value + 0x100 * HexDigitValue(h[1]).value
                         + 0x10 * HexDigitValue(h[2]).value + HexDigitValue(h[3]).value
  {
    assert h[0] in h && h[1] in h && h[2] in h && h[3] in h;
    assert forall c <- h :: c == h[0] || c == h[1] || c == h[2] || c == h[3];
  }

  lemma UnitIsHex4(p: string, u: nat)
    requires |p| == 6
    ensures Unit(p) == Some(u) <==> p[0] == '\\' && p[1] == 'u' && IsHex4(p[2..6]) && Hex4(p[2..6]) == u
  {
  }

  lemma WritesIffSpells(p: string, c: char)
    ensures Writes(p, c) <==> Spells(p, c)
  {
    hide UnitIs, Unit;
    if |p| == 6 {
      UnitIsValue(p, c as int);
    } else if |p| == 12 {
      PairIffSpells(p, c);
    }
    NotAUnit(p, c as int);
  }

  lemma NotAUnit(p: string, u: int)
    ensures |p| != 6 ==> !UnitIs(p, u)
  {
  }

  lemma PairIffSpells(p: string, c: char)
    requires |p| == 12
    ensures (exists high: int, low: int :: PairIs(p, high, low, c)) <==> Spells(p, c)
  {
    hide UnitIs, Unit;
    forall u: nat ensures (UnitIs(p[..6], u) <==> Unit(p[..6]) == Some(u)) &&
      (UnitIs(p[6..], u) <==> Unit(p[6..]) == Some(u)) {
      UnitIsValue(p[..6], u);
      UnitIsValue(p[6..], u);
    }
    if Spells(p, c) {
      assert PairIs(p, Unit(p[..6]).value, Unit(p[6..]).value, c);
    }
  }

  /** How the parser reads one character. */
  ghost predicate Spells(p: string, c: char) {
    (p == [c] && Unescaped(c)) ||
    (|p| == 2 && p[0] == '\\' && Short(p[1]) == Some(c)) ||
    (|p| == 6 && Unit(p) == Some(c as int)) ||
    (|p| == 12 && Unit(p[..6]).Some? && Unit(p[6..]).Some? && IsHigh(Unit(p[..6]).value) && IsLow(Unit(p[6..]).value)
     && Combine(Unit(p[..6]).value, Unit(p[6..]).value) == c)
  }

  ghost predicate Spelling(pieces: seq<string>, value: string) {
    |pieces| == |value| && forall i :: 0 <= i < |value| ==> Writes(pieces[i], value[i])
  }

  lemma OnePiece(p: string, c: char, tail: string)
    requires Spells(p, c)
    ensures ParseBody(p + tail) == Push(c, ParseBody(tail))
  {
    var s := p + tail;
    if |p| == 1 {
      assert s[1..] == tail;
    } else if |p| == 2 {
      assert s[2..] == tail && s[1] == p[1] && s[0] == p[0];
      assert Unit(s).None?;
    } else if |p| == 6 {
      UnitOfFront(p, tail);
      assert s[6..] == tail;
    } else {
      OnePair(p, c, tail);
    }
  }

  lemma OnePair(p: string, c: char, tail: string)
    requires Spells(p, c) && |p| == 12
    ensures ParseBody(p + tail) == Push(c, ParseBody(tail))
  {
    hide IsHex4, Hex4;
    var s := p + tail;
    UnitOfFront(p[..6], p[6..] + tail);
    assert s == p[..6] + (p[6..] + tail);
    assert s[6..] == p[6..] + tail;
    UnitOfFront(p[6..], tail);
    assert s[12..] == tail;
  }

  lemma {:induction false} BodyDecodes(pieces: seq<string>, value: string, rest: string)
    requires Spelling(pieces, value)
    ensures ParseBody(Closing(pieces, rest)) == Some((value, rest))
    decreases |pieces|
  {
    hide ParseBody, Spells, Writes;
    if pieces == [] {
      EmptyBody(rest);
      assert Closing(pieces, rest) == ['"'] + rest;
    } else {
      BodyDecodes(pieces[1..], value[1..], rest);
      WritesIffSpells(pieces[0], value[0]);
      OnePiece(pieces[0], value[0], Closing(pieces[1..], rest));
      ClosingSplits(pieces, rest);
      assert value == [value[0]] + value[1..];
    }
  }

  /** However a non-empty secret is written as a JSON string, the loaded key is the secret. */
  lemma LoadingInvertsStoring(secret: string, before: string, pieces: seq<string>, after: string)
    requires secret != "" && Spelling(pieces, secret) && Blank(before) && Blank(after)
    ensures LoadedSecret(before + Quoted(pieces, after)) == secret
  {
    hide ParseBody, Quoted, Closing, Unquote, Spelling, Blank;
    BodyDecodes(pieces, secret, after);
    UnquoteWritten(before, pieces, after);
  }

  lemma {:induction false} FlatOfSingles(s: string)
    ensures Flat(seq(|s|, i requires 0 <= i < |s| => [s[i]])) == s
  {
    var pieces := seq(|s|, i requires 0 <= i < |s| => [s[i]]);
    if s != "" {
      FlatOfSingles(s[1..]);
      assert pieces[1..] == seq(|s| - 1, i requires 0 <= i < |s| - 1 => [s[1..][i]]);
      assert s == [s[0]] + s[1..];
    }
  }

  /** In particular between quotes as it is, when it has no quotes, backslashes and control characters. */
  lemma PlainSecretLoads(secret: string)
    requires secret != "" && forall c <- secret :: c as int >= 0x20 && c as int != 0x22 && c as int != 0x5C
    ensures LoadedSecret(['"'] + secret + ['"']) == secret
  {
    hide LoadedSecret;
    var pieces: seq<string> := seq(|secret|, i requires 0 <= i < |secret| => [secret[i]]);
    FlatOfSingles(secret);
    forall i | 0 <= i < |secret| ensures Writes(pieces[i], secret[i]) {
      assert secret[i] in secret;
    }
    assert "" + Quoted(pieces, "") == ['"'] + secret + ['"'];
    LoadingInvertsStoring(secret, "", pieces, "");
  }

  /** A surrogate by itself is replaced. */
  lemma LoneSurrogateIsReplaced(p: string, u: int)
    requires UnitIs(p, u) && 0xD800 <= u < 0xE000
    ensures LoadedSecret(['"'] + p + ['"']) == [0xFFFD as char]
  {
    hide UnitIs, ParseBody, Unit, TrimLeft, Flat, Unquote;
    NotAUnit(p, u);
    UnitIsValue(p, u);
    LoneSurrogateParses(p, u);
    FlatOfOne(p);
    assert Closing([p], "") == p + ['"'];
    assert "" + Quoted([p], "") == ['"'] + p + ['"'];
    UnquoteWritten("", [p], "");
  }

  lemma LoneSurrogateParses(p: string, u: nat)
    requires |p| == 6 && Unit(p) == Some(u) && 0xD800 <= u < 0xE000
    ensures ParseBody(p + ['"']) == Some(([0xFFFD as char], ""))
  {
    hide IsHex4, Hex4;
    var body := p + ['"'];
    UnitOfFront(p, ['"']);
    assert body[6..] == ['"'];
    EmptyBody("");
    assert ['"'] + "" == ['"'];
    assert [0xFFFD as char] + "" == [0xFFFD as char];
  }

  /** Anything else that is not empty is the key as it stands, and no loaded key is empty. */
  lemma OtherTextIsVerbatim(text: string)
    requires text != ""
    ensures !IsJsonString(text) ==> LoadedSecret(text) == text
    ensures LoadedSecret(text) != ""
  {
    UnquotesIffJsonString(text);
  }
}
