/** The white space of ECMAScript (what `trim`, `trimEnd` and the class `\s` recognise),
    the order of its strings, and padded base64 text. */
module Text {

  predicate IsSpace(c: char) {
    || c == '\t' || c == '\n' || c == '\U{B}' || c == '\U{C}' || c == '\r' || c == ' '
    || c == '\U{A0}' || c == '\U{1680}' || '\U{2000}' <= c <= '\U{200A}'
    || c == '\U{2028}' || c == '\U{2029}' || c == '\U{202F}' || c == '\U{205F}'
    || c == '\U{3000}' || c == '\U{FEFF}'
  }

  predicate Spaces(s: string) {
    forall c | c in s :: IsSpace(c)
  }

  /** Whether something other than white space is left after trimming. */
  predicate HasText(s: string) {
    exists i :: 0 <= i < |s| && !IsSpace(s[i])
  }

  function TrimStart(s: string): (r: string)
    ensures r == [] || !IsSpace(r[0])
    ensures |r| <= |s| && r == s[|s| - |r|..]
  {
    if s == [] || !IsSpace(s[0]) then s else TrimStart(s[1..])
  }

  function TrimEnd(s: string): (r: string)
    ensures r == [] || !IsSpace(r[|r| - 1])
    ensures |r| <= |s| && r == s[..|r|]
  {
    if s == [] || !IsSpace(s[|s| - 1]) then s else TrimEnd(s[..|s| - 1])
  }

  function Trim(s: string): string {
    TrimStart(TrimEnd(s))
  }

  /** The first place of a character, or the length of the text. */
  function IndexOf(s: string, c: char): (n: nat)
    ensures n <= |s| && (n < |s| ==> s[n] == c)
    ensures c !in s[..n]
  {
    if s == "" || s[0] == c then 0 else
      var n := 1 + IndexOf(s[1..], c);
      assert s[..n] == [s[0]] + s[1..][..n - 1];
      n
  }

  lemma {:induction false} IndexAfter(a: string, c: char, b: string)
    requires c !in a
    ensures IndexOf(a + [c] + b, c) == |a|
  {
    var s := a + [c] + b;
    if a != "" {
      assert s[0] == a[0];
      assert s[1..] == a[1..] + [c] + b;
      IndexAfter(a[1..], c, b);
    }
  }

  /** The alphabet of section 4 of RFC 4648. */
  predicate IsBase64(c: char) {
    'a' <= c <= 'z' || 'A' <= c <= 'Z' || '0' <= c <= '9' || c == '+' || c == '/'
  }

  /** Characters of that alphabet, and then `n` padding characters. */
  predicate PaddedBy(s: string, n: nat) {
    && n <= |s|
    && (forall i | 0 <= i < |s| - n :: IsBase64(s[i]))
    && (forall i | |s| - n <= i < |s| :: s[i] == '=')
  }

  function CompareNat(a: nat, b: nat): int {
    if a < b then -1 else if a > b then 1 else 0
  }

  /** Where the code units of a character come: those of a pair begin with a surrogate, so
      characters beyond U+FFFF come before U+E000 to U+FFFF. */
  function CodeUnitRank(c: char): int {
    if '\U{E000}' <= c <= '\U{FFFF}' then c as int + 0x11_0000 else c as int
  }

  /** Code-unit order of two strings. */
  function CompareText(a: string, b: string): int {
    if a == [] || b == [] then CompareNat(|a|, |b|)
    else if a[0] != b[0] then (if CodeUnitRank(a[0]) < CodeUnitRank(b[0]) then -1 else 1)
    else CompareText(a[1..], b[1..])
  }

  lemma {:induction false} TextOrder(a: string, b: string, c: string)
    ensures CompareText(a, b) == -CompareText(b, a)
    ensures CompareText(a, b) == 0 <==> a == b
    ensures CompareText(a, b) <= 0 && CompareText(b, c) <= 0 ==> CompareText(a, c) <= 0
    ensures CompareText(a, b) < 0 && CompareText(b, c) <= 0 ==> CompareText(a, c) < 0
    ensures CompareText(a, b) <= 0 && CompareText(b, c) < 0 ==> CompareText(a, c) < 0
    decreases |a| + |b| + |c|
  {
    if a != [] && b != [] {
      TextOrder(a[1..], b[1..], if c == [] then c else c[1..]);
      assert a == [a[0]] + a[1..] && b == [b[0]] + b[1..];
    }
  }

  /** The code units of a character. */
  function CodeUnits(c: char): (u: seq<int>) {
    var n := c as int;
    if n < 0x1_0000 then [n] else [0xD800 + (n - 0x1_0000) / 0x400, 0xDC00 + (n - 0x1_0000) % 0x400]
  }

  /** The first code unit in which two characters differ is smaller. */
  predicate UnitsBelow(c: char, d: char) {
    var u, v := CodeUnits(c), CodeUnits(d);
    u[0] < v[0] || (u[0] == v[0] && |u| == |v| == 2 && u[1] < v[1])
  }

  lemma RankMeans(c: char, d: char)
    ensures CodeUnitRank(c) < CodeUnitRank(d) <==> UnitsBelow(c, d)
  {
  }

  /** At the first place where two strings differ the character with the smaller code units
      decides, and a string comes after its own proper prefixes. */
  ghost predicate TextBelow(a: string, b: string) {
    exists k :: TextBelowAt(a, b, k)
  }

  predicate TextBelowAt(a: string, b: string, k: nat) {
    && k <= |a| && k < |b| && a[..k] == b[..k]
    && (k < |a| ==> UnitsBelow(a[k], b[k]))
  }

  lemma TextBelowTail(a: string, b: string, k: nat)
    requires a != "" && b != ""
    ensures TextBelowAt(a, b, k + 1) <==> a[0] == b[0] && TextBelowAt(a[1..], b[1..], k)
  {
    if k < |a| && k < |b| {
      assert a[..k + 1] == [a[0]] + a[1..][..k] && b[..k + 1] == [b[0]] + b[1..][..k];
      assert a[..k + 1][1..] == a[1..][..k] && b[..k + 1][1..] == b[1..][..k];
    }
  }

  lemma {:induction false} CompareTextMeans(a: string, b: string)
    ensures CompareText(a, b) < 0 <==> TextBelow(a, b)
  {
    assert TextBelowAt(a, b, 0) <==> a == "" != b || (a != "" && b != "" && UnitsBelow(a[0], b[0]));
    if a != "" && b != "" {
      RankMeans(a[0], b[0]);
      CompareTextMeans(a[1..], b[1..]);
      if TextBelow(a, b) {
        var k: nat :| TextBelowAt(a, b, k);
        if k > 0 {
          TextBelowTail(a, b, k - 1);
        }
      }
      if TextBelow(a[1..], b[1..]) {
        var k: nat :| TextBelowAt(a[1..], b[1..], k);
        TextBelowTail(a, b, k);
      }
    }
  }
}
