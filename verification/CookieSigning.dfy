/** The signed cookie value: "s:" + id + "." + unpadded Base64 of HMAC-SHA256(id, secret). */
module CookieSigning {
  import opened Wrappers
  import opened Base64

  /** HMAC-SHA256 as an arbitrary function of key and message to 32 bytes. */
  type Mac = f: (string, string) -> seq<Byte> | forall key, message :: |f(key, message)| == 32
    witness (key: string, message: string) => seq(32, _ => 0)

  function Signature(id: string, secret: string, mac: Mac): string {
    TrimRightChar(EncodePadded(mac(secret, id)), '=')
  }

  function SignCookie(id: string, secret: string, mac: Mac): string {
    "s:" + id + "." + Signature(id, secret, mac)
  }

  /** The index after the last dot, or 0 when there is none. */
  function AfterLastDot(s: string): (k: nat)
    ensures k <= |s| && '.' !in s[k..] && (k > 0 ==> s[k - 1] == '.')
  {
    if s == "" then 0
    else if s[|s| - 1] == '.' then |s|
    else
      var k := AfterLastDot(s[..|s| - 1]);
      assert s[k..] == s[..|s| - 1][k..] + [s[|s| - 1]];
      k
  }

  /**
   What Ghost's express-session accepts: "s:", the ID, the last dot, and then the Base64 text of the 32-byte MAC of
   the ID under the secret, without padding.
   */
  function Unsign(cookie: string, secret: string, mac: Mac): Option<string> {
    if !("s:" <= cookie) then None
    else
      var signed := cookie[2..];
      var k := AfterLastDot(signed);
      if k == 0 then None
      else
        var id := signed[..k - 1];
        if Decode(Standard, signed[k..]) == Some(mac(secret, id)) then Some(id) else None
  }

  lemma SignatureForm(id: string, secret: string, mac: Mac)
    ensures var sig := Signature(id, secret, mac);
            |sig| == 43 && Decode(Standard, sig) == Some(mac(secret, id))
            && forall c <- sig :: Value(Standard, c).Some?
  {
    var m := mac(secret, id);
    TrimPadding(m);
    DecodeEncode(Standard, m);
    SextetCount(m);
  }

  lemma LastDotOf(id: string, sig: string)
    requires '.' !in sig
    ensures AfterLastDot(id + "." + sig) == |id| + 1
  {
    var s := id + "." + sig;
    assert s[|id|] == '.' && s[|id| + 1..] == sig;
  }

  lemma SignatureHasNoDot(id: string, secret: string, mac: Mac)
    ensures '.' !in Signature(id, secret, mac)
  {
    SignatureForm(id, secret, mac);
    assert Value(Standard, '.').None?;
  }

  lemma SignatureIffDecodes(sig: string, id: string, secret: string, mac: Mac)
    ensures Decode(Standard, sig) == Some(mac(secret, id)) <==> sig == Signature(id, secret, mac)
  {
    TrimPadding(mac(secret, id));
    DecodeIffEncode(Standard, sig, mac(secret, id));
  }

  /** Verification accepts exactly the signed values, and gives back the ID even when it holds dots. */
  lemma UnsignIffSigned(cookie: string, id: string, secret: string, mac: Mac)
    ensures Unsign(cookie, secret, mac) == Some(id) <==> cookie == SignCookie(id, secret, mac)
  {
    hide Decode, Signature;
    SignatureHasNoDot(id, secret, mac);
    var sig := Signature(id, secret, mac);
    LastDotOf(id, sig);
    var signed := SignCookie(id, secret, mac);
    assert signed[2..] == id + "." + sig;
    assert signed[2..][..|id|] == id && signed[2..][|id| + 1..] == sig;
    SignatureIffDecodes(sig, id, secret, mac);
    if Unsign(cookie, secret, mac) == Some(id) {
      var rest := cookie[2..];
      var k := AfterLastDot(rest);
      SignatureIffDecodes(rest[k..], id, secret, mac);
      assert rest == rest[..k - 1] + "." + rest[k..];
      assert cookie == "s:" + rest;
    }
  }

  lemma SignCookieShape(id: string, secret: string, mac: Mac)
    ensures var c := SignCookie(id, secret, mac);
            |c| == |id| + 46 && Decode(Standard, c[|id| + 3..]) == Some(mac(secret, id))
  {
    SignatureForm(id, secret, mac);
    assert SignCookie(id, secret, mac)[|id| + 3..] == Signature(id, secret, mac);
  }

  lemma SignCookieInjective(id: string, id': string, secret: string, mac: Mac)
    requires SignCookie(id, secret, mac) == SignCookie(id', secret, mac)
    ensures id == id'
  {
    UnsignIffSigned(SignCookie(id, secret, mac), id, secret, mac);
    UnsignIffSigned(SignCookie(id, secret, mac), id', secret, mac);
  }
}
