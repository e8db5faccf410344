/** User._HashPassword: the lower-case hexadecimal rendering of a digest of
    the user name followed by the password. The digest itself (SHA-256 over
    the UTF-8 bytes) is a parameter of the model: every property below holds
    for any digest function. */
module Passwords {

  type byte = x: int | 0 <= x < 256

  /** One lower-case hexadecimal digit. */
  function HexDigit(d: nat): char
    requires d < 16
  {
    if d < 10 then ('0' as int + d) as char else ('a' as int + d - 10) as char
  }

  /** b.ToString("x2"). */
  function HexByte(b: byte): string {
    [HexDigit(b / 16), HexDigit(b % 16)]
  }

  /** The bytes rendered two hexadecimal digits each, in order. */
  function Hex(bytes: seq<byte>): (s: string)
    ensures |s| == 2 * |bytes|
  {
    if bytes == [] then "" else Hex(bytes[..|bytes| - 1]) + HexByte(bytes[|bytes| - 1])
  }

  /** The hash _HashPassword computes for a user name and a password. */
  function PasswordHash(digest: string -> seq<byte>, userName: string, password: string): string {
    Hex(digest(userName + password))
  }

  /** The StringBuilder loop of _HashPassword: one "x2" rendering appended
      per digest byte. */
  method HexEncode(bytes: seq<byte>) returns (s: string)
    ensures s == Hex(bytes)
  {
    s := "";
    for i := 0 to |bytes|
      invariant s == Hex(bytes[..i])
    {
      assert bytes[..i + 1][..i] == bytes[..i];
      s := s + HexByte(bytes[i]);
    }
    assert bytes[..|bytes|] == bytes;
  }

  method HashPassword(digest: string -> seq<byte>, userName: string, password: string) returns (hash: string)
    ensures hash == PasswordHash(digest, userName, password)
  {
    var bytes := digest(userName + password);
    hash := HexEncode(bytes);
  }

  lemma HexByteInjective(a: byte, b: byte)
    requires HexByte(a) == HexByte(b)
    ensures a == b
  {
    assert HexDigit(a / 16) == HexDigit(b / 16);
    assert HexDigit(a % 16) == HexDigit(b % 16);
  }

  /** Different byte strings never render to the same text. */
  lemma {:induction false} HexInjective(a: seq<byte>, b: seq<byte>)
    requires Hex(a) == Hex(b)
    ensures a == b
  {
    if a != [] {
      var n := |a| - 1;
      var ha, hb := Hex(a[..n]), Hex(b[..n]);
      assert Hex(a) == ha + HexByte(a[n]);
      assert Hex(b) == hb + HexByte(b[n]);
      assert ha == Hex(a)[..2 * n] && hb == Hex(b)[..2 * n];
      assert HexByte(a[n]) == Hex(a)[2 * n..] && HexByte(b[n]) == Hex(b)[2 * n..];
      HexInjective(a[..n], b[..n]);
      HexByteInjective(a[n], b[n]);
      assert a == a[..n] + [a[n]] && b == b[..n] + [b[n]];
    }
  }

  /** A stored hash matches a password's hash exactly when the digests of the
      two inputs agree: comparing hex strings is comparing digests. */
  lemma HashesMatchIffDigestsMatch(digest: string -> seq<byte>, userName: string, p: string, q: string)
    ensures PasswordHash(digest, userName, p) == PasswordHash(digest, userName, q)
            <==> digest(userName + p) == digest(userName + q)
  {
    if PasswordHash(digest, userName, p) == PasswordHash(digest, userName, q) {
      HexInjective(digest(userName + p), digest(userName + q));
    }
  }
}
