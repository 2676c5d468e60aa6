/** The names under which provider secrets are kept
    (apps/server/src/serverSettings.ts: `providerEnvironmentSecretName`), over the bytes of
    the instance id and of the variable name. Base64 is that of section 5 of RFC 4648, in
    which the separator `-` is itself the sextet 62, written without padding. */
module SecretNames {

  type Byte = b: int | 0 <= b < 256

  type Sextet = s: int | 0 <= s < 64

  const DASH: Sextet := 62

  function Char(s: Sextet): char {
    if s < 26 then ('A' as int + s) as char
    else if s < 52 then ('a' as int + (s - 26)) as char
    else if s < 62 then ('0' as int + (s - 52)) as char
    else if s == 62 then '-'
    else '_'
  }

  function Text(sextets: seq<Sextet>): (t: string)
    ensures |t| == |sextets| && forall i | 0 <= i < |t| :: t[i] == Char(sextets[i])
  {
    seq(|sextets|, i requires 0 <= i < |sextets| => Char(sextets[i]))
  }

  /** Three bytes to four sextets; one or two left over to two or three. */
  function Encode(bytes: seq<Byte>): seq<Sextet> {
    if bytes == [] then []
    else if |bytes| == 1 then [bytes[0] / 4, bytes[0] % 4 * 16]
    else if |bytes| == 2 then [bytes[0] / 4, bytes[0] % 4 * 16 + bytes[1] / 16, bytes[1] % 16 * 4]
    else
      [bytes[0] / 4, bytes[0] % 4 * 16 + bytes[1] / 16, bytes[1] % 16 * 4 + bytes[2] / 64, bytes[2] % 64]
      + Encode(bytes[3..])
  }

  function FirstByte(a: int, b: int): int {
    a * 4 + b / 16
  }

  function SecondByte(b: int, c: int): int {
    b % 16 * 16 + c / 4
  }

  function ThirdByte(c: int, d: int): int {
    c % 4 * 64 + d
  }

  function Decode(sextets: seq<Sextet>): seq<int> {
    if |sextets| < 2 then []
    else if |sextets| == 2 then [FirstByte(sextets[0], sextets[1])]
    else if |sextets| == 3 then [FirstByte(sextets[0], sextets[1]), SecondByte(sextets[1], sextets[2])]
    else
      [FirstByte(sextets[0], sextets[1]), SecondByte(sextets[1], sextets[2]), ThirdByte(sextets[2], sextets[3])]
      + Decode(sextets[4..])
  }

  function SecretName(id: seq<Byte>, name: seq<Byte>): string {
    "provider-env-" + Text(Encode(id)) + "-" + Text(Encode(name))
  }

  lemma CharUpper(s: Sextet)
    requires s < 26
    ensures Char(s) == "ABCDEFGHIJKLMNOPQRSTUVWXYZ"[s]
  {
    assert s < 13 ==> Char(s) == "ABCDEFGHIJKLM"[s];
  }

  lemma CharLower(s: Sextet)
    requires 26 <= s < 52
    ensures Char(s) == "abcdefghijklmnopqrstuvwxyz"[s - 26]
  {
    assert s < 39 ==> Char(s) == "abcdefghijklm"[s - 26];
  }

  /** The alphabet of base64url. */
  lemma CharMeans(s: Sextet)
    ensures s < 26 ==> Char(s) == "ABCDEFGHIJKLMNOPQRSTUVWXYZ"[s]
    ensures 26 <= s < 52 ==> Char(s) == "abcdefghijklmnopqrstuvwxyz"[s - 26]
    ensures 52 <= s ==> Char(s) == "0123456789-_"[s - 52]
  {
    if s < 26 {
      CharUpper(s);
    } else if s < 52 {
      CharLower(s);
    }
  }

  /** The last but one of the test vectors in section 10 of RFC 4648, and bytes that give
      the two characters in which base64url differs from base64. */
  lemma Named()
    ensures SecretName([102, 111, 111, 98, 97], [251, 255]) == "provider-env-Zm9vYmE--_8"
  {
    var five: seq<Byte> := [102, 111, 111, 98, 97];
    assert five[3..] == [98, 97];
    assert Encode(five) == [25, 38, 61, 47, 24, 38, 4];
    assert Text(Encode(five)) == "Zm9vYmE";
    assert Text(Encode([251, 255])) == "-_8";
    assert "provider-env-" + "Zm9vYmE" + "-" + "-_8" == "provider-env-Zm9vYmE--_8";
  }

  // ---------------------------------------------------------------- decoding undoes encoding

  lemma SplitsBack(a: Byte, b: Byte, c: Byte)
    ensures FirstByte(a / 4, a % 4 * 16 + b / 16) == a && FirstByte(a / 4, a % 4 * 16) == a
    ensures SecondByte(a % 4 * 16 + b / 16, b % 16 * 4 + c / 64) == b
    ensures SecondByte(a % 4 * 16 + b / 16, b % 16 * 4) == b
    ensures ThirdByte(b % 16 * 4 + c / 64, c % 64) == c
  {
  }

  lemma {:induction false} DecodeEncode(bytes: seq<Byte>)
    ensures Decode(Encode(bytes)) == bytes
  {
    if |bytes| > 2 {
      DecodeEncode(bytes[3..]);
      SplitsBack(bytes[0], bytes[1], bytes[2]);
      assert Encode(bytes)[4..] == Encode(bytes[3..]);
      assert bytes == bytes[..3] + bytes[3..];
    } else if |bytes| == 2 {
      SplitsBack(bytes[0], bytes[1], 0);
    } else if |bytes| == 1 {
      SplitsBack(bytes[0], 0, 0);
    }
  }

  lemma CharInjective(a: Sextet, b: Sextet)
    ensures Char(a) == Char(b) ==> a == b
  {
  }

  lemma TextInjective(a: seq<Sextet>, b: seq<Sextet>)
    requires Text(a) == Text(b)
    ensures a == b
  {
    assert |a| == |Text(a)| == |b|;
    forall i | 0 <= i < |a| ensures a[i] == b[i] {
      assert Text(a)[i] == Text(b)[i];
      CharInjective(a[i], b[i]);
    }
  }

  // ---------------------------------------------------------------- when names are unambiguous

  /** The encoding of the name does not contain the separator. */
  predicate Dashless(name: seq<Byte>) {
    DASH !in Encode(name)
  }

  lemma NoLaterDash(a: string, b: string)
    requires '-' !in b
    ensures var s := a + "-" + b;
            && s[|a|] == '-' && s[..|a|] == a && s[|a| + 1..] == b
            && forall i | |a| < i < |s| :: s[i] != '-'
  {
    var s := a + "-" + b;
    forall i | |a| < i < |s| ensures s[i] != '-' {
      assert s[i] == b[i - |a| - 1];
    }
  }

  lemma LastDash(a: string, b: string, x: string, y: string)
    requires a + "-" + b == x + "-" + y && '-' !in b && '-' !in y
    ensures a == x && b == y
  {
    NoLaterDash(a, b);
    NoLaterDash(x, y);
  }

  lemma TextDashless(name: seq<Byte>)
    requires Dashless(name)
    ensures '-' !in Text(Encode(name))
  {
    forall i | 0 <= i < |Encode(name)| ensures Text(Encode(name))[i] != '-' {
      CharInjective(Encode(name)[i], DASH);
    }
  }

  /** Secret names of variables whose encoded names hold no separator tell both the
      instance and the variable apart, whatever the instance ids. */
  lemma Injective(id: seq<Byte>, name: seq<Byte>, id': seq<Byte>, name': seq<Byte>)
    requires Dashless(name) && Dashless(name')
    requires SecretName(id, name) == SecretName(id', name')
    ensures id == id' && name == name'
  {
    var prefix := "provider-env-";
    var a, x := Text(Encode(id)), Text(Encode(id'));
    var b, y := Text(Encode(name)), Text(Encode(name'));
    assert SecretName(id, name)[|prefix|..] == a + "-" + b;
    assert SecretName(id', name')[|prefix|..] == x + "-" + y;
    TextDashless(name);
    TextDashless(name');
    LastDash(a, b, x, y);
    TextInjective(Encode(id), Encode(id'));
    TextInjective(Encode(name), Encode(name'));
    DecodeEncode(id);
    DecodeEncode(id');
    DecodeEncode(name);
    DecodeEncode(name');
  }

  /** A byte of an ASCII letter, digit or underscore. */
  predicate IsWord(b: Byte) {
    0x30 <= b <= 0x39 || 0x41 <= b <= 0x5A || b == 0x5F || 0x61 <= b <= 0x7A
  }

  predicate AllWord(name: seq<Byte>) {
    forall i | 0 <= i < |name| :: IsWord(name[i])
  }

  /** Names made of letters, digits and underscores are such names. */
  lemma {:induction false} WordsDashless(name: seq<Byte>)
    requires AllWord(name)
    ensures Dashless(name)
  {
    if |name| > 2 {
      WordsDashless(name[3..]);
      FourDashless(name[0], name[1], name[2]);
    } else if |name| == 2 {
      FourDashless(name[0], name[1], 0x41);
    }
  }

  lemma FourDashless(a: Byte, b: Byte, c: Byte)
    requires IsWord(a) && IsWord(b) && IsWord(c)
    ensures a / 4 != DASH && a % 4 * 16 + b / 16 != DASH && b % 16 * 4 + c / 64 != DASH && c % 64 != DASH
    ensures b % 16 * 4 != DASH
  {
  }

  lemma TextConcat(a: seq<Sextet>, b: seq<Sextet>)
    ensures Text(a + b) == Text(a) + Text(b)
  {
  }

  lemma EncodeThree(a: Byte, b: Byte, c: Byte, rest: seq<Byte>)
    ensures Encode([a, b, c] + rest)
         == [a / 4, a % 4 * 16 + b / 16, b % 16 * 4 + c / 64, c % 64] + Encode(rest)
  {
    assert ([a, b, c] + rest)[3..] == rest;
  }

  /** The encoding of `ab>` is that of `ab` and the separator. */
  lemma DashInside(rest: seq<Byte>)
    ensures Text(Encode([97, 98, 62] + rest)) == Text(Encode([97, 98])) + "-" + Text(Encode(rest))
  {
    var ab: seq<Sextet> := [24, 22, 8];
    EncodeThree(97, 98, 62, rest);
    assert Encode([97, 98]) == ab;
    TextConcat(ab + [DASH], Encode(rest));
    TextConcat(ab, [DASH]);
    assert Text([DASH]) == "-";
  }

  /** The contract receives only variable names made of letters, digits and underscores
      (packages/contracts/src/providerInstance.ts), and whatever the instance ids their
      secrets never collide. */
  lemma ReceivedNeverCollide(id: seq<Byte>, name: seq<Byte>, id': seq<Byte>, name': seq<Byte>)
    requires AllWord(name) && AllWord(name')
    ensures SecretName(id, name) == SecretName(id', name') <==> id == id' && name == name'
  {
    WordsDashless(name);
    WordsDashless(name');
    if SecretName(id, name) == SecretName(id', name') {
      Injective(id, name, id', name');
    }
  }

  /** The restriction on names is needed: without it two different variables would share one
      secret, `ab>ab` with `c` and `ab` with `ab>c`. The contract refuses both. */
  lemma Collision()
    ensures var ab: seq<Byte> := [97, 98];
            var c: seq<Byte> := [99];
            && [97, 98, 62] + ab != ab
            && SecretName([97, 98, 62] + ab, c) == SecretName(ab, [97, 98, 62] + c)
  {
    var ab: seq<Byte> := [97, 98];
    var c: seq<Byte> := [99];
    DashInside(ab);
    DashInside(c);
    SameJoin(Text(Encode(ab)), Text(Encode(c)));
  }

  lemma SameJoin(ab: string, c: string)
    ensures "provider-env-" + (ab + "-" + ab) + "-" + c == "provider-env-" + ab + "-" + (ab + "-" + c)
  {
  }
}
