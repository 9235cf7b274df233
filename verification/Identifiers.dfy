/** Session IDs (24 random bytes, URL-safe Base64) and Ghost object IDs (time and random bytes in hex). */
module Identifiers {
  import opened Wrappers
  import opened Base64

  // ------------------------------------------------------------- session IDs

  predicate UrlSafeText(s: string) {
    forall c <- s :: Value(UrlSafe, c).Some?
  }

  /** The form of every session ID, whether drawn by this program or by uid-safe. */
  predicate SessionIdForm(s: string) {
    |s| == 32 && UrlSafeText(s)
  }

  lemma EncodingIsUrlSafe(b: seq<Byte>)
    ensures UrlSafeText(Encode(UrlSafe, b))
  {
    ValuesOfSpelling(UrlSafe, Sextets(b));
  }

  lemma SessionIdFormOfDraw(b: seq<Byte>)
    requires |b| == 24
    ensures SessionIdForm(Encode(UrlSafe, b))
  {
    EncodingIsUrlSafe(b);
    SextetCount(b);
  }

  /** Every text of the right form is the encoding of exactly one draw. */
  lemma SessionIdFormIsDraw(s: string) returns (b: seq<Byte>)
    requires SessionIdForm(s)
    ensures |b| == 24 && s == Encode(UrlSafe, b)
  {
    var d := Values(UrlSafe, s).value;
    b := EightGroups(d, 8);
    EncodeDecode(UrlSafe, s);
  }

  lemma {:induction false} EightGroups(d: seq<Sextet>, n: nat) returns (b: seq<Byte>)
    requires |d| == 4 * n
    ensures Unpack(d) == Some(b) && |b| == 3 * n
  {
    if n == 0 {
      b := [];
    } else {
      var rest := EightGroups(d[4..], n - 1);
      b := Unpack(d).value;
    }
  }

  /** `None` stands for a failed read of the random source. */
  method GenerateSessionId(random: Option<seq<Byte>>) returns (r: Result<string, string>)
    requires random.Some? ==> |random.value| == 24
    ensures random.None? ==> r.Err?
    ensures random.Some? ==> r == Ok(Encode(UrlSafe, random.value))
  {
    var b := new Byte[24](_ => 0);
    if random.None? {
      return Err("random source failed");
    }
    FillFrom(b, 0, random.value);
    assert b[..] == random.value;
    var s := EncodeBuffer(UrlSafe, b);
    r := Ok(s);
  }

  /** Overwrites the part of `b` that starts at `start` with `bytes`. */
  method FillFrom(b: array<Byte>, start: nat, bytes: seq<Byte>)
    requires start + |bytes| == b.Length
    modifies b
    ensures b[..] == old(b[..start]) + bytes
  {
    var i := 0;
    while i < |bytes|
      invariant 0 <= i <= |bytes|
      invariant b[..start] == old(b[..start])
      invariant b[start..start + i] == bytes[..i]
    {
      b[start + i] := bytes[i];
      i := i + 1;
    }
    assert b[..] == b[..start] + b[start..start + i];
  }

  // ------------------------------------------------------------- hexadecimal

  type Nibble = v: int | 0 <= v < 16

  function HexDigit(v: Nibble): char {
    if v < 10 then (v + 48) as char else (v + 87) as char
  }

  function HexValue(c: char): Option<Nibble> {
    if '0' <= c <= '9' then Some(c as int - 48)
    else if 'a' <= c <= 'f' then Some(c as int - 87)
    else None
  }

  function HexEncode(b: seq<Byte>): (s: string)
    ensures |s| == 2 * |b|
  {
    if b == [] then "" else [HexDigit(b[0] / 16), HexDigit(b[0] % 16)] + HexEncode(b[1..])
  }

  function HexDecode(s: string): Option<seq<Byte>> {
    if s == "" then Some([])
    else if |s| == 1 || HexValue(s[0]).None? || HexValue(s[1]).None? then None
    else
      match HexDecode(s[2..])
      case None => None
      case Some(rest) => Some([HexByte(HexValue(s[0]).value, HexValue(s[1]).value)] + rest)
  }

  function HexByte(high: Nibble, low: Nibble): Byte {
    var h: int := high;
    16 * h + low
  }

  /** Lowercase hex is inverted by its decoder, and the decoder accepts nothing else. */
  lemma {:induction false} HexDecodeIffEncode(s: string, b: seq<Byte>)
    ensures HexDecode(s) == Some(b) <==> s == HexEncode(b)
    decreases |s|
  {
    if |s| >= 2 && b != [] {
      HexDecodeIffEncode(s[2..], b[1..]);
      assert s == [s[0], s[1]] + s[2..];
      assert b == [b[0]] + b[1..];
      HexByteDigits(s[0], s[1], b[0]);
      if s == HexEncode(b) {
        assert HexEncode(b)[2..] == HexEncode(b[1..]);
      }
    }
  }

  lemma HexByteDigits(c: char, d: char, x: Byte)
    ensures c == HexDigit(x / 16) && d == HexDigit(x % 16) <==>
            HexValue(c).Some? && HexValue(d).Some? && HexByte(HexValue(c).value, HexValue(d).value) == x
  {
  }

  // ------------------------------------------------------------- order

  ghost predicate TextBefore(s: string, t: string) {
    s < t || (exists k :: 0 <= k < |s| && k < |t| && s[..k] == t[..k] && s[k] < t[k])
  }

  lemma HexDigitOrder(x: Byte, y: Byte)
    requires x < y
    ensures HexDigit(x / 16) < HexDigit(y / 16) ||
            (HexDigit(x / 16) == HexDigit(y / 16) && HexDigit(x % 16) < HexDigit(y % 16))
  {
  }

  /** Hex text sorts as the bytes it stands for: `j` is where the two texts part. */
  lemma {:induction false} HexKeepsOrder(a: seq<Byte>, b: seq<Byte>, k: nat) returns (j: nat)
    requires k < |a| && k < |b| && a[..k] == b[..k] && a[k] < b[k]
    ensures var s, t := HexEncode(a), HexEncode(b);
            j < |s| && j < |t| && s[..j] == t[..j] && s[j] < t[j]
    decreases k
  {
    var s, t := HexEncode(a), HexEncode(b);
    if k == 0 {
      HexDigitOrder(a[0], b[0]);
      j := if s[0] < t[0] then 0 else 1;
    } else {
      assert a[0] == a[..k][0] == b[..k][0] == b[0];
      assert a[1..][..k - 1] == a[..k][1..] == b[..k][1..] == b[1..][..k - 1];
      var i := HexKeepsOrder(a[1..], b[1..], k - 1);
      j := i + 2;
      assert s[..j] == [s[0], s[1]] + s[2..][..i];
      assert t[..j] == [t[0], t[1]] + t[2..][..i];
    }
  }

  // ------------------------------------------------------------- object IDs

  const TWO_32 := 0x1_0000_0000

  /** Go's conversion uint32(x) of an int64. */
  function Uint32(x: int): (u: nat)
    ensures u < TWO_32
  {
    x % TWO_32
  }

  /** One byte to the right. */
  function Shift(u: nat): (v: nat)
    ensures 256 * v + u % 256 == u
  {
    u / 256
  }

  function BigEndian(u: nat): seq<Byte>
    requires u < TWO_32
  {
    [Shift(Shift(Shift(u))) % 256, Shift(Shift(u)) % 256, Shift(u) % 256, u % 256]
  }

  function ObjectIdBytes(unixSeconds: int, random: seq<Byte>): seq<Byte> {
    BigEndian(Uint32(unixSeconds)) + random
  }

  function ObjectId(unixSeconds: int, random: seq<Byte>): string {
    HexEncode(ObjectIdBytes(unixSeconds, random))
  }

  method GenerateObjectId(unixSeconds: int, random: Option<seq<Byte>>) returns (r: Result<string, string>)
    requires random.Some? ==> |random.value| == 8
    ensures random.None? ==> r.Err?
    ensures random.Some? ==> r == Ok(ObjectId(unixSeconds, random.value))
  {
    var b := new Byte[12](_ => 0);
    var u := Uint32(unixSeconds);
    b[0] := Shift(Shift(Shift(u))) % 256;
    b[1] := Shift(Shift(u)) % 256;
    b[2] := Shift(u) % 256;
    b[3] := u % 256;
    if random.None? {
      return Err("random source failed");
    }
    assert b[..4] == BigEndian(u);
    FillFrom(b, 4, random.value);
    assert b[..] == ObjectIdBytes(unixSeconds, random.value);
    r := Ok(HexEncode(b[..]));
  }

  lemma BigEndianValue(u: nat)
    requires u < TWO_32
    ensures var b: seq<int> := BigEndian(u);
            u == 0x100_0000 * b[0] + 0x1_0000 * b[1] + 0x100 * b[2] + b[3]
  {
  }

  lemma BigEndianOrder(u: nat, v: nat) returns (k: nat)
    requires u < v < TWO_32
    ensures k < 4 && BigEndian(u)[..k] == BigEndian(v)[..k] && BigEndian(u)[k] < BigEndian(v)[k]
  {
    var x, y := BigEndian(u), BigEndian(v);
    BigEndianValue(u);
    BigEndianValue(v);
    k := if x[0] != y[0] then 0 else if x[1] != y[1] then 1 else if x[2] != y[2] then 2 else 3;
  }

  /**
   Whatever the random part, an ID sorts before another exactly when its 32-bit time does.
   Up to 2106 that is the order of the seconds; the truncation to 32 bits turns it round after that.
   */
  lemma ObjectIdOrder(t: int, r: seq<Byte>, t': int, r': seq<Byte>)
    requires Uint32(t) != Uint32(t')
    ensures TextBefore(ObjectId(t, r), ObjectId(t', r')) <==> Uint32(t) < Uint32(t')
  {
    if Uint32(t) < Uint32(t') {
      EarlierSortsFirst(t, r, t', r');
    } else {
      EarlierSortsFirst(t', r', t, r);
      BeforeIsAsymmetric(ObjectId(t, r), ObjectId(t', r'));
    }
  }

  lemma BeforeIsAsymmetric(s: string, t: string)
    requires TextBefore(t, s)
    ensures !TextBefore(s, t)
  {
    if TextBefore(s, t) {
      var k := FirstDifference(t, s);
      var j := FirstDifference(s, t);
      assert false;
    }
  }

  /** Where `s` falls below `t`: the first differing position, or the end of the prefix `s`. */
  lemma FirstDifference(s: string, t: string) returns (k: nat)
    requires TextBefore(s, t)
    ensures k <= |s| && k < |t| && s[..k] == t[..k] && (k < |s| ==> s[k] < t[k])
  {
    if s < t {
      k := |s|;
    } else {
      k :| 0 <= k < |s| && k < |t| && s[..k] == t[..k] && s[k] < t[k];
    }
  }

  lemma EarlierSortsFirst(t: int, r: seq<Byte>, t': int, r': seq<Byte>)
    requires Uint32(t) < Uint32(t')
    ensures TextBefore(ObjectId(t, r), ObjectId(t', r'))
  {
    var k := BigEndianOrder(Uint32(t), Uint32(t'));
    var a, b := ObjectIdBytes(t, r), ObjectIdBytes(t', r');
    assert a[..k] == BigEndian(Uint32(t))[..k] && b[..k] == BigEndian(Uint32(t'))[..k];
    var j := HexKeepsOrder(a, b, k);
  }

  /** Hex text, digit by digit. */
  lemma {:induction false} HexDigitsOf(b: seq<Byte>, k: nat)
    requires k < |b|
    ensures HexEncode(b)[2 * k] == "0123456789abcdef"[b[k] / 16]
    ensures HexEncode(b)[2 * k + 1] == "0123456789abcdef"[b[k] % 16]
  {
    HexDigitIs(b[0] / 16);
    HexDigitIs(b[0] % 16);
    if k > 0 {
      HexDigitsOf(b[1..], k - 1);
      assert HexEncode(b)[2..] == HexEncode(b[1..]);
    }
  }

  lemma HexDigitIs(v: Nibble)
    ensures HexDigit(v) == "0123456789abcdef"[v]
  {
  }

  /** An object ID has 24 lowercase hex digits and gives back its time and its random bytes. */
  lemma ObjectIdRoundTrip(t: int, r: seq<Byte>)
    requires |r| == 8
    ensures |ObjectId(t, r)| == 24
    ensures HexDecode(ObjectId(t, r)) == Some(ObjectIdBytes(t, r))
    ensures forall t', r' :: |r'| == 8 && ObjectId(t', r') == ObjectId(t, r) ==> r' == r && Uint32(t') == Uint32(t)
  {
    var b := ObjectIdBytes(t, r);
    HexDecodeIffEncode(HexEncode(b), b);
    forall t', r' | |r'| == 8 && ObjectId(t', r') == ObjectId(t, r)
      ensures r' == r && Uint32(t') == Uint32(t)
    {
      var b' := ObjectIdBytes(t', r');
      HexDecodeIffEncode(HexEncode(b), b');
      assert b == b' && b[4..] == r && b'[4..] == r';
      assert b[..4] == BigEndian(Uint32(t)) && b'[..4] == BigEndian(Uint32(t'));
      if Uint32(t) < Uint32(t') {
        var k := BigEndianOrder(Uint32(t), Uint32(t'));
      } else if Uint32(t') < Uint32(t) {
        var k := BigEndianOrder(Uint32(t'), Uint32(t));
      }
    }
  }

  /** The number that the first four bytes are in big-endian order. */
  function TimeIn(b: seq<Byte>): int
    requires |b| >= 4
  {
    var s: seq<int> := b;
    0x100_0000 * s[0] + 0x1_0000 * s[1] + 0x100 * s[2] + s[3]
  }

  /** The ID holds the time: the seconds themselves up to 2106, and the same number modulo 2^32 always. */
  lemma ObjectIdHoldsTime(t: int, r: seq<Byte>)
    requires |r| == 8
    ensures HexDecode(ObjectId(t, r)).Some?
    ensures var b := HexDecode(ObjectId(t, r)).value;
            && |b| == 12 && b[4..] == r
            && (t - TimeIn(b)) % 0x1_0000_0000 == 0
            && (0 <= t < 0x1_0000_0000 ==>
              t == 0x100_0000 * b[0] as int + 0x1_0000 * b[1] as int + 0x100 * b[2] as int + b[3] as int)
  {
    ObjectIdRoundTrip(t, r);
    var b := ObjectIdBytes(t, r);
    assert b[4..] == r;
    BigEndianValue(Uint32(t));
    assert TimeIn(b) == Uint32(t);
  }

  /** Up to 2106 an ID of a later second sorts after one of an earlier second, whatever the random parts. */
  lemma LaterSecondsSortLater(t: int, r: seq<Byte>, t': int, r': seq<Byte>)
    requires 0 <= t < t' < 0x1_0000_0000
    ensures TextBefore(ObjectId(t, r), ObjectId(t', r')) && !TextBefore(ObjectId(t', r'), ObjectId(t, r))
  {
    ObjectIdOrder(t, r, t', r');
    ObjectIdOrder(t', r', t, r);
  }
}
