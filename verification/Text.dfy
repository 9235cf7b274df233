/** Cutting, trimming and printing strings, as the header parsers need them. */
module Text {
  /** The index of the first `c`, or the length of `s`. */
  function Find(s: string, c: char): (k: nat)
    ensures k <= |s| && c !in s[..k] && (k < |s| ==> s[k] == c)
  {
    if s == "" || s[0] == c then 0
    else
      var k := Find(s[1..], c) + 1;
      assert s[..k] == [s[0]] + s[1..][..k - 1];
      k
  }

  function Before(s: string, c: char): string {
    s[..Find(s, c)]
  }

  function After(s: string, c: char): string {
    if c in s then s[Find(s, c) + 1..] else ""
  }

  lemma FindIs(s: string, c: char, k: nat)
    requires k <= |s| && c !in s[..k] && (k < |s| ==> s[k] == c)
    ensures Find(s, c) == k
  {
  }

  lemma CutAt(a: string, c: char, b: string)
    requires c !in a
    ensures Before(a + [c] + b, c) == a && After(a + [c] + b, c) == b
  {
    FindIs(a + [c] + b, c, |a|);
  }

  lemma CutNothing(a: string, c: char)
    requires c !in a
    ensures Before(a, c) == a && After(a, c) == ""
  {
    FindIs(a, c, |a|);
  }

  /** Every text with a `c` in it is its two halves around the first one. */
  lemma CutGlue(s: string, c: char)
    requires c in s
    ensures c !in Before(s, c) && s == Before(s, c) + [c] + After(s, c)
    ensures |After(s, c)| < |s|
  {
  }

  // ------------------------------------------------------------- trimming

  function TrimLeft(s: string, ws: set<char>): (t: string)
    ensures |t| <= |s| && t == s[|s| - |t|..]
  {
    if s != "" && s[0] in ws then TrimLeft(s[1..], ws) else s
  }

  function TrimRight(s: string, ws: set<char>): (t: string)
    ensures t <= s
  {
    if s != "" && s[|s| - 1] in ws then TrimRight(s[..|s| - 1], ws) else s
  }

  function Trim(s: string, ws: set<char>): string {
    TrimRight(TrimLeft(s, ws), ws)
  }

  lemma TrimNothing(s: string, ws: set<char>)
    requires s == "" || (s[0] !in ws && s[|s| - 1] !in ws)
    ensures Trim(s, ws) == s
  {
  }

  lemma TrimFront(c: char, s: string, ws: set<char>)
    requires c in ws
    ensures Trim([c] + s, ws) == Trim(s, ws)
  {
    assert ([c] + s)[1..] == s;
  }

  lemma TrimRightBack(s: string, c: char, ws: set<char>)
    requires c in ws
    ensures TrimRight(s + [c], ws) == TrimRight(s, ws)
  {
    assert (s + [c])[..|s|] == s;
  }

  lemma {:induction false} TrimBack(s: string, c: char, ws: set<char>)
    requires c in ws
    ensures Trim(s + [c], ws) == Trim(s, ws)
  {
    hide TrimRight;
    if s == "" {
      assert s + [c] == [c] + s;
      TrimFront(c, s, ws);
    } else if s[0] in ws {
      TrimBack(s[1..], c, ws);
      TrimFront(s[0], s[1..] + [c], ws);
      TrimFront(s[0], s[1..], ws);
      assert [s[0]] + s[1..] == s && [s[0]] + (s[1..] + [c]) == s + [c];
    } else {
      assert TrimLeft(s + [c], ws) == s + [c];
      TrimRightBack(s, c, ws);
    }
  }

  // ------------------------------------------------------------- decimal numbers

  function Decimal(n: nat): (s: string)
    ensures s != ""
  {
    if n < 10 then [(n + 48) as char] else Decimal(n / 10) + [(n % 10 + 48) as char]
  }

  /** Go's %d. */
  function Printed(n: int): string {
    if n < 0 then "-" + Decimal(-n) else Decimal(n)
  }

  predicate IsDigit(c: char) {
    '0' <= c <= '9'
  }

  function DigitValue(c: char): (d: nat)
    requires IsDigit(c)
    ensures d < 10
  {
    c as int - 48
  }

  function DecimalValue(s: string): nat
    requires forall c <- s :: IsDigit(c)
  {
    if s == "" then 0 else DecimalValue(s[..|s| - 1]) * 10 + DigitValue(s[|s| - 1])
  }

  lemma {:induction false} DecimalRoundTrip(n: nat)
    ensures (forall c <- Decimal(n) :: IsDigit(c)) && DecimalValue(Decimal(n)) == n
  {
    if n >= 10 {
      DecimalRoundTrip(n / 10);
      var s := Decimal(n);
      assert s[..|s| - 1] == Decimal(n / 10);
    } else {
      var s := Decimal(n);
      assert s[..0] == "";
    }
  }
}
