/**
 Base64 without padding over either alphabet of RFC 4648, and the padded standard form.
 The codec goes through six-bit values, so that both alphabets share one proof.
 */
module Base64 {
  import opened Wrappers

  type Sextet = d: int | 0 <= d < 64

  datatype Alphabet = Standard | UrlSafe

  // ------------------------------------------------------------- bytes and sextets

  function Sextets(b: seq<Byte>): (d: seq<Sextet>)
  {
    if |b| < 3 then Tail(b) else Group(b[0], b[1], b[2]) + Sextets(b[3..])
  }

  /** The last, incomplete group. */
  function Tail(b: seq<Byte>): seq<Sextet>
    requires |b| < 3
  {
    if |b| == 0 then []
    else if |b| == 1 then [b[0] / 4, b[0] % 4 * 16]
    else [b[0] / 4, b[0] % 4 * 16 + b[1] / 16, b[1] % 16 * 4]
  }

  function Group(x: Byte, y: Byte, z: Byte): seq<Sextet> {
    [x / 4, x % 4 * 16 + y / 16, y % 16 * 4 + z / 64, z % 64]
  }

  function First(p: Sextet, q: Sextet): Byte {
    var x: int := p;
    x * 4 + q / 16
  }

  function Second(q: Sextet, r: Sextet): Byte {
    var x: int := q % 16;
    x * 16 + r / 4
  }

  function Third(r: Sextet, t: Sextet): Byte {
    var x: int := r % 4;
    x * 64 + t
  }

  /** Strict decoding: the unused low bits of the last sextet must be zero. */
  function Unpack(d: seq<Sextet>): Option<seq<Byte>> {
    if |d| < 4 then UnpackTail(d)
    else
      match Unpack(d[4..])
      case None => None
      case Some(rest) => Some([First(d[0], d[1]), Second(d[1], d[2]), Third(d[2], d[3])] + rest)
  }

  function UnpackTail(d: seq<Sextet>): Option<seq<Byte>>
    requires |d| < 4
  {
    if |d| == 0 then Some([])
    else if |d| == 1 then None
    else if |d| == 2 then UnpackOne(d[0], d[1])
    else UnpackTwo(d[0], d[1], d[2])
  }

  function UnpackOne(p: Sextet, q: Sextet): Option<seq<Byte>> {
    if q % 16 == 0 then Some([First(p, q)]) else None
  }

  function UnpackTwo(p: Sextet, q: Sextet, r: Sextet): Option<seq<Byte>> {
    if r % 4 == 0 then Some([First(p, q), Second(q, r)]) else None
  }

  lemma GroupBytes(x: Byte, y: Byte, z: Byte)
    ensures var g := Group(x, y, z);
            First(g[0], g[1]) == x && Second(g[1], g[2]) == y && Third(g[2], g[3]) == z
  {
  }

  lemma OneByte(x: Byte)
    ensures UnpackOne(x / 4, x % 4 * 16) == Some([x])
  {
    var low := x % 4;
    assert low * 16 / 16 == low && low * 16 % 16 == 0;
  }

  lemma TwoBytes(x: Byte, y: Byte)
    ensures UnpackTwo(x / 4, x % 4 * 16 + y / 16, y % 16 * 4) == Some([x, y])
  {
    GroupBytes(x, y, 0);
  }

  lemma TailBytes(b: seq<Byte>)
    requires |b| < 3
    ensures UnpackTail(Tail(b)) == Some(b)
  {
    if |b| == 1 {
      OneByte(b[0]);
      assert b == [b[0]];
    } else if |b| == 2 {
      TwoBytes(b[0], b[1]);
      assert b == [b[0], b[1]];
    }
  }

  lemma {:induction false} UnpackSextets(b: seq<Byte>)
    ensures Unpack(Sextets(b)) == Some(b)
  {
    if |b| < 3 {
      TailBytes(b);
    } else {
      UnpackSextets(b[3..]);
      GroupBytes(b[0], b[1], b[2]);
      assert Sextets(b)[4..] == Sextets(b[3..]);
      assert b == [b[0], b[1], b[2]] + b[3..];
    }
  }

  lemma GroupSextets(p: Sextet, q: Sextet, r: Sextet, t: Sextet)
    ensures Group(First(p, q), Second(q, r), Third(r, t)) == [p, q, r, t]
  {
    Divide(First(p, q), p, 4, q / 16);
    Divide(Second(q, r), q % 16, 16, r / 4);
    Divide(Third(r, t), r % 4, 64, t);
  }

  lemma Divide(n: int, q: int, d: int, r: int)
    requires n == q * d + r && 0 <= r < d && d in {4, 16, 64}
    ensures n / d == q && n % d == r
  {
  }

  lemma TailSextets(d: seq<Sextet>)
    requires |d| < 4 && UnpackTail(d).Some?
    ensures |UnpackTail(d).value| < 3 && Tail(UnpackTail(d).value) == d
  {
    if |d| == 2 {
      GroupSextets(d[0], d[1], 0, 0);
      assert d == [d[0], d[1]];
    } else if |d| == 3 {
      GroupSextets(d[0], d[1], d[2], 0);
      assert d == [d[0], d[1], d[2]];
    }
  }

  lemma {:induction false} SextetsUnpack(d: seq<Sextet>)
    requires Unpack(d).Some?
    ensures Sextets(Unpack(d).value) == d
  {
    if |d| < 4 {
      TailSextets(d);
    } else {
      SextetsUnpack(d[4..]);
      GroupSextets(d[0], d[1], d[2], d[3]);
      var b := Unpack(d).value;
      assert b[3..] == Unpack(d[4..]).value;
      assert d == [d[0], d[1], d[2], d[3]] + d[4..];
    }
  }

  lemma {:induction false} SextetCount(b: seq<Byte>)
    ensures |Sextets(b)| == (4 * |b| + 2) / 3
  {
    if |b| >= 3 {
      SextetCount(b[3..]);
    }
  }

  lemma {:induction false} SextetsOfSplit(x: seq<Byte>, y: seq<Byte>)
    requires |x| % 3 == 0
    ensures Sextets(x + y) == Sextets(x) + Sextets(y)
  {
    if |x| == 0 {
      assert x + y == y;
    } else {
      assert (x + y)[3..] == x[3..] + y;
      SextetsOfSplit(x[3..], y);
    }
  }

  lemma OneGroup(p: Byte, q: Byte, r: Byte)
    ensures Sextets([p, q, r]) == Group(p, q, r)
  {
    hide Group, Tail;
    NoSextets();
    assert [p, q, r][3..] == [];
    assert Sextets([p, q, r]) == Group(p, q, r) + Sextets([p, q, r][3..]);
  }

  lemma NoSextets()
    ensures Sextets([]) == []
  {
  }

  lemma AppendGroup(x: seq<Byte>, p: Byte, q: Byte, r: Byte)
    requires |x| % 3 == 0
    ensures Sextets(x + [p, q, r]) == Sextets(x) + Group(p, q, r)
  {
    hide Sextets, Group;
    SextetsOfSplit(x, [p, q, r]);
    OneGroup(p, q, r);
  }

  lemma AppendTail(x: seq<Byte>, y: seq<Byte>)
    requires |x| % 3 == 0 && |y| < 3
    ensures Sextets(x + y) == Sextets(x) + Tail(y)
  {
    SextetsOfSplit(x, y);
  }

  // ------------------------------------------------------------- characters

  function Letter(a: Alphabet, v: Sextet): char {
    if v < 26 then (v + 65) as char
    else if v < 52 then (v + 71) as char
    else if v < 62 then (v - 4) as char
    else if v == 62 then (if a == Standard then '+' else '-')
    else (if a == Standard then '/' else '_')
  }

  function Value(a: Alphabet, c: char): Option<Sextet> {
    if 'A' <= c <= 'Z' then Some(c as int - 65)
    else if 'a' <= c <= 'z' then Some(c as int - 71)
    else if '0' <= c <= '9' then Some(c as int + 4)
    else if c == (if a == Standard then '+' else '-') then Some(62)
    else if c == (if a == Standard then '/' else '_') then Some(63)
    else None
  }

  function Spell(a: Alphabet, d: seq<Sextet>): (s: string)
    ensures |s| == |d|
  {
    seq(|d|, i requires 0 <= i < |d| => Letter(a, d[i]))
  }

  function Values(a: Alphabet, s: string): Option<seq<Sextet>> {
    if forall c <- s :: Value(a, c).Some?
    then Some(seq(|s|, i requires 0 <= i < |s| => Value(a, s[i]).value))
    else None
  }

  /** RawStdEncoding / RawURLEncoding: no padding characters. */
  function Encode(a: Alphabet, b: seq<Byte>): string {
    Spell(a, Sextets(b))
  }

  function Decode(a: Alphabet, s: string): Option<seq<Byte>> {
    match Values(a, s)
    case None => None
    case Some(d) => Unpack(d)
  }

  lemma DecodeEncode(a: Alphabet, b: seq<Byte>)
    ensures Decode(a, Encode(a, b)) == Some(b)
  {
    ValuesOfSpelling(a, Sextets(b));
    UnpackSextets(b);
  }

  lemma EncodeDecode(a: Alphabet, s: string)
    requires Decode(a, s).Some?
    ensures Encode(a, Decode(a, s).value) == s
  {
    var d := Values(a, s).value;
    SextetsUnpack(d);
    forall i | 0 <= i < |s| ensures Letter(a, d[i]) == s[i] {
      LetterValue(a, s[i]);
    }
    assert Spell(a, d) == s;
  }

  lemma LetterValue(a: Alphabet, c: char)
    requires Value(a, c).Some?
    ensures Letter(a, Value(a, c).value) == c
  {
  }

  /** The encoder and the strict decoder are inverse to each other, in both directions. */
  lemma DecodeIffEncode(a: Alphabet, s: string, b: seq<Byte>)
    ensures Decode(a, s) == Some(b) <==> s == Encode(a, b)
  {
    DecodeEncode(a, b);
    if Decode(a, s) == Some(b) {
      EncodeDecode(a, s);
    }
  }

  lemma ValuesOfSpelling(a: Alphabet, d: seq<Sextet>)
    ensures Values(a, Spell(a, d)) == Some(d)
  {
    var s := Spell(a, d);
    assert forall i :: 0 <= i < |s| ==> Value(a, s[i]) == Some(d[i]);
    assert Values(a, s).value == d;
  }

  lemma EncodeInjective(a: Alphabet, b: seq<Byte>, b': seq<Byte>)
    requires Encode(a, b) == Encode(a, b')
    ensures b == b'
  {
    DecodeIffEncode(a, Encode(a, b), b);
    DecodeIffEncode(a, Encode(a, b), b');
  }

  // ------------------------------------------------------------- against RFC 4648

  const UPPER := "ABCDEFGHIJKLMNOPQRSTUVWXYZ"
  const LOWER := "abcdefghijklmnopqrstuvwxyz"
  const DIGITS := "0123456789"

  /** Tables 1 and 2 of RFC 4648. */
  function Table(a: Alphabet): string {
    UPPER + LOWER + DIGITS + (if a == Standard then "+/" else "-_")
  }

  lemma UpperIs(v: int)
    requires 0 <= v < 26
    ensures UPPER[v] == (v + 65) as char
  {
  }

  lemma LowerIs(v: int)
    requires 0 <= v < 26
    ensures LOWER[v] == (v + 97) as char
  {
  }

  lemma DigitIs(v: int)
    requires 0 <= v < 10
    ensures DIGITS[v] == (v + 48) as char
  {
  }

  lemma LetterIsInTable(a: Alphabet, v: Sextet)
    ensures |Table(a)| == 64 && Letter(a, v) == Table(a)[v]
  {
    if v < 26 {
      UpperIs(v);
    } else if v < 52 {
      LowerIs(v - 26);
    } else if v < 62 {
      DigitIs(v - 52);
    }
    TableAt(a, v);
  }

  lemma TableAt(a: Alphabet, v: Sextet)
    ensures |Table(a)| == 64
    ensures Table(a)[v] ==
            if v < 26 then UPPER[v] else if v < 52 then LOWER[v - 26] else if v < 62 then DIGITS[v - 52]
            else (if a == Standard then "+/" else "-_")[v - 62]
  {
  }

  lemma {:induction false} GroupAt(b: seq<Byte>, k: nat)
    requires 3 * k + 2 < |b|
    ensures |Sextets(b)| >= 4 * k + 4
    ensures Sextets(b)[4 * k..4 * k + 4] == Group(b[3 * k], b[3 * k + 1], b[3 * k + 2])
  {
    if k > 0 {
      GroupAt(b[3..], k - 1);
      assert Sextets(b)[4..] == Sextets(b[3..]);
      assert Sextets(b)[4 * k..4 * k + 4] == Sextets(b[3..])[4 * (k - 1)..4 * (k - 1) + 4];
    }
  }

  lemma GroupIsNumber(x: Byte, y: Byte, z: Byte)
    ensures var g: seq<int> := Group(x, y, z);
            0x1_0000 * x as int + 0x100 * y as int + z as int == 0x4_0000 * g[0] + 0x1000 * g[1] + 64 * g[2] + g[3]
  {
  }

  /** Each three bytes, taken as one number, are its four digits to the base 64, written with the table. */
  lemma EncodesByTable(a: Alphabet, b: seq<Byte>, k: nat) returns (g: seq<Sextet>)
    requires 3 * k + 2 < |b|
    ensures |g| == 4 && |Table(a)| == 64 && |Encode(a, b)| >= 4 * k + 4
    ensures 0x1_0000 * b[3 * k] as int + 0x100 * b[3 * k + 1] as int + b[3 * k + 2] as int ==
            0x4_0000 * g[0] as int + 0x1000 * g[1] as int + 64 * g[2] as int + g[3] as int
    ensures Encode(a, b)[4 * k..4 * k + 4] == [Table(a)[g[0]], Table(a)[g[1]], Table(a)[g[2]], Table(a)[g[3]]]
  {
    hide Group, Sextets, Letter, Table;
    GroupAt(b, k);
    GroupIsNumber(b[3 * k], b[3 * k + 1], b[3 * k + 2]);
    g := Group(b[3 * k], b[3 * k + 1], b[3 * k + 2]);
    var d := Sextets(b)[4 * k..4 * k + 4];
    assert Encode(a, b)[4 * k..4 * k + 4] == [Letter(a, d[0]), Letter(a, d[1]), Letter(a, d[2]), Letter(a, d[3])];
    LetterIsInTable(a, d[0]);
    LetterIsInTable(a, d[1]);
    LetterIsInTable(a, d[2]);
    LetterIsInTable(a, d[3]);
  }

  /** One or two bytes at the end are two or three characters, filled up with zero bits. */
  lemma TailByTable(a: Alphabet, b: seq<Byte>, y: seq<Byte>) returns (g: seq<Sextet>)
    requires |b| % 3 == 0 && 0 < |y| < 3
    ensures |g| == |y| + 1 && |Table(a)| == 64 && |Encode(a, b + y)| == |Encode(a, b)| + |g|
    ensures |y| == 1 ==> 16 * y[0] as int == 64 * g[0] as int + g[1] as int
    ensures |y| == 2 ==>
              4 * (0x100 * y[0] as int + y[1] as int) == 0x1000 * g[0] as int + 64 * g[1] as int + g[2] as int
    ensures forall i :: 0 <= i < |g| ==> Encode(a, b + y)[|Encode(a, b)| + i] == Table(a)[g[i]]
  {
    hide Sextets, Letter, Table;
    AppendTail(b, y);
    g := Tail(y);
    forall i | 0 <= i < |g| ensures |Table(a)| == 64 && Letter(a, g[i]) == Table(a)[g[i]] {
      LetterIsInTable(a, g[i]);
    }
    LetterIsInTable(a, 0);
  }

  // ------------------------------------------------------------- padded form

  function Padding(n: nat): string {
    if n % 3 == 0 then "" else if n % 3 == 1 then "==" else "="
  }

  /** StdEncoding: padded to a multiple of four characters. */
  function EncodePadded(b: seq<Byte>): (s: string) {
    Encode(Standard, b) + Padding(|b|)
  }

  function TrimRightChar(s: string, c: char): string {
    if |s| > 0 && s[|s| - 1] == c then TrimRightChar(s[..|s| - 1], c) else s
  }

  lemma NoPaddingInside(b: seq<Byte>)
    ensures '=' !in Encode(Standard, b)
  {
    var d := Sextets(b);
    forall i | 0 <= i < |d| ensures Letter(Standard, d[i]) != '=' {
    }
  }

  lemma TrimOne(s: string, c: char)
    ensures TrimRightChar(s + [c], c) == TrimRightChar(s, c)
  {
    assert (s + [c])[..|s|] == s;
  }

  lemma TrimAppended(s: string, n: nat)
    requires '=' !in s
    ensures TrimRightChar(s + Padding(n), '=') == s
  {
    assert s == "" || s[|s| - 1] in s;
    TrimOne(s, '=');
    if n % 3 == 0 {
      assert s + Padding(n) == s;
    } else if n % 3 == 1 {
      TrimOne(s + ['='], '=');
      assert s + Padding(n) == s + ['='] + ['='];
    } else {
      assert s + Padding(n) == s + ['='];
    }
  }

  /** Trimming the padding leaves exactly the unpadded encoding. */
  lemma TrimPadding(b: seq<Byte>)
    ensures TrimRightChar(EncodePadded(b), '=') == Encode(Standard, b)
  {
    NoPaddingInside(b);
    TrimAppended(Encode(Standard, b), |b|);
  }

  // ------------------------------------------------------------- the encoder as a loop

  /** Encodes whole groups of three bytes in place, then the one- or two-byte tail. */
  method EncodeBuffer(a: Alphabet, src: array<Byte>) returns (s: string)
    ensures s == Encode(a, src[..])
  {
    hide Sextets, Group, Tail, Spell;
    NoSextets();
    var n := src.Length / 3 * 3;
    var dst: seq<Sextet> := [];
    var i := 0;
    while i < n
      invariant 0 <= i <= n && i % 3 == 0
      invariant dst == Sextets(src[..i])
    {
      AppendGroup(src[..i], src[i], src[i + 1], src[i + 2]);
      assert src[..i + 3] == src[..i] + [src[i], src[i + 1], src[i + 2]];
      dst := dst + Group(src[i], src[i + 1], src[i + 2]);
      i := i + 3;
    }
    AppendTail(src[..n], src[n..]);
    assert src[..] == src[..n] + src[n..];
    dst := dst + Tail(src[n..]);
    s := Spell(a, dst);
  }
}
