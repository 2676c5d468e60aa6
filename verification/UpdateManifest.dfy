/** Update manifests: the values they hold and how each is written on one line
    (scripts/lib/update-manifest.ts). */
module UpdateManifest {
  import opened Text

  /** Any number but NaN. Decimals are exact: the rounding of doubles is not modelled, and
      zero has no sign. */
  datatype Number =
    | Decimal(negative: bool, whole: nat, fraction: string)
    | Infinite(negative: bool)

  datatype Scalar = Str(text: string) | Num(number: Number) | Bool(value: bool)

  datatype File = File(url: string, sha512: string, size: Number)

  datatype Manifest = Manifest(version: string, releaseDate: string, files: seq<File>, extras: map<string, Scalar>)

  // ---------------------------------------------------------------- characters

  /** What `.` does not match. */
  predicate IsTerminator(c: char) {
    c == '\n' || c == '\r' || c == '\U{2028}' || c == '\U{2029}'
  }

  predicate SingleLine(s: string) {
    forall i | 0 <= i < |s| :: !IsTerminator(s[i])
  }

  predicate IsDigit(c: char) {
    '0' <= c <= '9'
  }

  predicate IsLetter(c: char) {
    'A' <= c <= 'Z' || 'a' <= c <= 'z'
  }

  predicate AllDigits(s: string) {
    forall i | 0 <= i < |s| :: IsDigit(s[i])
  }

  // ---------------------------------------------------------------- quoting

  /** Every single quote doubled. */
  function Double(s: string): string {
    if s == "" then ""
    else (if s[0] == '\'' then "''" else [s[0]]) + Double(s[1..])
  }

  /** Every pair of single quotes halved, scanning from the left. */
  function Undouble(s: string): (r: string)
    ensures |r| <= |s|
  {
    if |s| < 2 then s
    else if s[0] == '\'' && s[1] == '\'' then "'" + Undouble(s[2..])
    else [s[0]] + Undouble(s[1..])
  }

  function Quote(s: string): string {
    "'" + Double(s) + "'"
  }

  predicate Wrapped(s: string) {
    s != "" && s[0] == '\'' && s[|s| - 1] == '\''
  }

  /** `stripSingleQuotes`: a lone quote both starts and ends with one. */
  function StripSingleQuotes(s: string): string {
    if !Wrapped(s) then s
    else if |s| == 1 then ""
    else Undouble(s[1..|s| - 1])
  }

  // ---------------------------------------------------------------- numbers

  function DigitOf(d: nat): (c: char)
    requires d < 10
    ensures IsDigit(c)
  {
    ('0' as int + d) as char
  }

  function ValueOf(c: char): (d: nat)
    requires IsDigit(c)
    ensures d < 10
  {
    c as int - '0' as int
  }

  function PrintNat(n: nat): (s: string)
    ensures s != "" && AllDigits(s)
  {
    if n < 10 then [DigitOf(n)] else PrintNat(n / 10) + [DigitOf(n % 10)]
  }

  function ParseNat(s: string): nat
    requires AllDigits(s)
  {
    if s == "" then 0 else 10 * ParseNat(s[..|s| - 1]) + ValueOf(s[|s| - 1])
  }

  /** A fraction without the zeros that end it. */
  function TrimZeros(s: string): (r: string)
    ensures |r| <= |s| && r == s[..|r|]
    ensures r == "" || r[|r| - 1] != '0'
  {
    if s == "" || s[|s| - 1] != '0' then s else TrimZeros(s[..|s| - 1])
  }

  /** The canonical form: a fraction of digits that does not end in zero, no signed zero. */
  predicate Canonical(n: Number) {
    && n.Decimal?
    && AllDigits(n.fraction)
    && (n.fraction != "" ==> n.fraction[|n.fraction| - 1] != '0')
    && (n.negative ==> n.whole > 0 || n.fraction != "")
  }

  predicate IsWhole(n: Number) {
    n.Decimal? && !n.negative && n.fraction == ""
  }

  function PrintMagnitude(whole: nat, fraction: string): string {
    PrintNat(whole) + (if fraction == "" then "" else "." + fraction)
  }

  /** Numbers from 10^21 on print with an exponent. */
  const LARGE: nat := 1_000_000_000_000_000_000_000

  function LeadingZeros(s: string): (n: nat)
    ensures n <= |s|
  {
    if s == "" || s[0] != '0' then 0 else 1 + LeadingZeros(s[1..])
  }

  /** Numbers below 10^21 that are zero or at least 10^-6 print in plain decimal notation. */
  predicate PrintsPlainly(n: Number) {
    n.Decimal? && n.whole < LARGE && (n.whole > 0 || n.fraction == "" || LeadingZeros(n.fraction) < 6)
  }

  /** The first digit, and the others after a point. */
  function Mantissa(digits: string): string {
    if |digits| <= 1 then digits else [digits[0]] + "." + digits[1..]
  }

  /** What follows the sign when a decimal does not print plainly. */
  function ExponentForm(whole: nat, fraction: string): string {
    if whole > 0 then
      var digits := PrintNat(whole);
      Mantissa(TrimZeros(digits + fraction)) + "e+" + PrintNat(|digits| - 1)
    else
      var zeros := LeadingZeros(fraction);
      Mantissa(fraction[zeros..]) + "e-" + PrintNat(zeros + 1)
  }

  /** The `String` form of a number. */
  function PrintNumber(n: Number): string {
    var magnitude :=
      if n.Infinite? then "Infinity"
      else if PrintsPlainly(n) then PrintMagnitude(n.whole, n.fraction)
      else ExponentForm(n.whole, n.fraction);
    if n.negative then "-" + magnitude else magnitude
  }

  /** The length of the digits a text begins with. */
  function DigitRun(s: string): (n: nat)
    ensures n <= |s| && AllDigits(s[..n]) && (n < |s| ==> !IsDigit(s[n]))
  {
    if s == "" || !IsDigit(s[0]) then 0 else
      var n := 1 + DigitRun(s[1..]);
      assert s[..n] == [s[0]] + s[1..][..n - 1];
      n
  }

  /** The expression `^\d+(?:\.\d+)?$`. */
  predicate IsMagnitude(t: string) {
    var n := DigitRun(t);
    && n > 0
    && (n < |t| ==> t[n] == '.' && n + 1 < |t| && AllDigits(t[n + 1..]))
  }

  function WholeOf(t: string): nat
    requires IsMagnitude(t)
  {
    ParseNat(t[..DigitRun(t)])
  }

  function FractionOf(t: string): (f: string)
    requires IsMagnitude(t)
    ensures AllDigits(f) && (f != "" ==> f[|f| - 1] != '0')
  {
    if DigitRun(t) < |t| then TrimZeros(t[DigitRun(t) + 1..]) else ""
  }

  /** What follows the sign. */
  function Unsigned(s: string): string {
    if s != "" && s[0] == '-' then s[1..] else s
  }

  /** The expression `^-?\d+(?:\.\d+)?$`. */
  predicate IsPlainNumber(s: string) {
    IsMagnitude(Unsigned(s))
  }

  function NumberOf(s: string): (n: Number)
    requires IsPlainNumber(s)
    ensures Canonical(n)
  {
    var whole := WholeOf(Unsigned(s));
    var fraction := FractionOf(Unsigned(s));
    Decimal(s[0] == '-' && (whole > 0 || fraction != ""), whole, fraction)
  }

  // ---------------------------------------------------------------- scalars

  function ParseScalarValue(raw: string): Scalar {
    var trimmed := Trim(raw);
    if Wrapped(trimmed) && |trimmed| >= 2 then Str(Undouble(trimmed[1..|trimmed| - 1]))
    else UnquotedScalar(trimmed)
  }

  function UnquotedScalar(value: string): Scalar {
    if value == "true" then Bool(true)
    else if value == "false" then Bool(false)
    else if IsPlainNumber(value) then Num(NumberOf(value))
    else Str(value)
  }

  function SerializeScalarValue(v: Scalar): string {
    match v
    case Str(text) => Quote(text)
    case Num(n) => PrintNumber(n)
    case Bool(b) => if b then "true" else "false"
  }

  // ---------------------------------------------------------------- each scalar reads back

  lemma {:induction false} UndoubleDouble(s: string)
    ensures Undouble(Double(s)) == s
  {
    if s != "" {
      UndoubleDouble(s[1..]);
      if s[0] == '\'' {
        assert Double(s)[2..] == Double(s[1..]);
      } else {
        assert Double(s)[1..] == Double(s[1..]);
        if |Double(s)| < 2 {
          assert s[1..] == "";
        }
      }
    }
  }

  lemma SingleLineConcat(a: string, b: string)
    ensures SingleLine(a + b) <==> SingleLine(a) && SingleLine(b)
  {
    assert forall i | 0 <= i < |a| :: (a + b)[i] == a[i];
    assert forall i | 0 <= i < |b| :: (a + b)[|a| + i] == b[i];
  }

  lemma {:induction false} DoubleSingleLine(s: string)
    ensures SingleLine(s) <==> SingleLine(Double(s))
  {
    if s != "" {
      DoubleSingleLine(s[1..]);
      SingleLineConcat([s[0]], s[1..]);
      SingleLineConcat(if s[0] == '\'' then "''" else [s[0]], Double(s[1..]));
      assert s == [s[0]] + s[1..];
    }
  }

  lemma TrimTight(s: string)
    requires s != "" && !IsSpace(s[0]) && !IsSpace(s[|s| - 1])
    ensures Trim(s) == s
  {
  }

  lemma {:induction false} ParsePrintNat(n: nat)
    ensures ParseNat(PrintNat(n)) == n
  {
    if n >= 10 {
      ParsePrintNat(n / 10);
      assert PrintNat(n)[..|PrintNat(n)| - 1] == PrintNat(n / 10);
    }
  }

  lemma DigitRunOf(a: string, b: string)
    requires AllDigits(a) && (b == "" || !IsDigit(b[0]))
    ensures DigitRun(a + b) == |a|
  {
    assert forall i | 0 <= i < |a| :: (a + b)[i] == a[i];
    assert b != "" ==> (a + b)[|a|] == b[0];
    assert forall i | 0 <= i < DigitRun(a + b) :: IsDigit((a + b)[..DigitRun(a + b)][i]);
  }

  lemma MagnitudeReadsBack(whole: nat, fraction: string)
    requires AllDigits(fraction) && (fraction != "" ==> fraction[|fraction| - 1] != '0')
    ensures var t := PrintMagnitude(whole, fraction);
            IsMagnitude(t) && WholeOf(t) == whole && FractionOf(t) == fraction && t[0] != '-'
  {
    var digits := PrintNat(whole);
    var rest := if fraction == "" then "" else "." + fraction;
    var t := PrintMagnitude(whole, fraction);
    assert rest != "" ==> rest[0] == '.' && rest[1..] == fraction;
    assert t == digits + rest && t[..|digits|] == digits;
    assert t[0] == digits[0] && IsDigit(digits[0]);
    DigitRunOf(digits, rest);
    ParsePrintNat(whole);
    assert rest != "" ==> t[|digits|] == '.' && t[|digits| + 1..] == fraction;
    assert TrimZeros(fraction) == fraction;
  }

  lemma MagnitudeText(whole: nat, fraction: string)
    requires AllDigits(fraction)
    ensures var t := PrintMagnitude(whole, fraction);
            t != "" && IsDigit(t[0]) && IsDigit(t[|t| - 1]) && SingleLine(t)
  {
    assert forall c :: IsDigit(c) ==> !IsTerminator(c);
    SingleLineConcat(".", fraction);
    SingleLineConcat(PrintNat(whole), if fraction == "" then "" else "." + fraction);
  }

  lemma NumberReadsBack(n: Number)
    requires Canonical(n) && PrintsPlainly(n)
    ensures IsPlainNumber(PrintNumber(n)) && NumberOf(PrintNumber(n)) == n
  {
    MagnitudeReadsBack(n.whole, n.fraction);
    var t := PrintMagnitude(n.whole, n.fraction);
    assert ("-" + t)[1..] == t;
    assert Unsigned(PrintNumber(n)) == t;
  }

  /** Every string, boolean and plainly printed number is read back from its own line. */
  lemma ScalarReadsBack(v: Scalar)
    requires v.Num? ==> Canonical(v.number) && PrintsPlainly(v.number)
    ensures ParseScalarValue(SerializeScalarValue(v)) == v
  {
    match v
    case Str(text) => TextReadsBack(text);
    case Num(n) => NumberLineReadsBack(n);
    case Bool(b) => TrimTight(SerializeScalarValue(v));
  }

  lemma TextReadsBack(text: string)
    ensures ParseScalarValue(Quote(text)) == Str(text)
  {
    var s := Quote(text);
    TrimTight(s);
    UndoubleDouble(text);
    assert s[1..|s| - 1] == Double(text);
  }

  lemma NumberLineReadsBack(n: Number)
    requires Canonical(n) && PrintsPlainly(n)
    ensures ParseScalarValue(PrintNumber(n)) == Num(n)
  {
    var s := PrintNumber(n);
    NumberText(n);
    NumberIsNoWord(s);
    assert Trim(s) == s by { TrimTight(s); }
    NumberReadsBack(n);
    PlainNumberLine(s);
  }

  lemma NumberText(n: Number)
    requires Canonical(n) && PrintsPlainly(n)
    ensures var s := PrintNumber(n);
            && s != "" && (IsDigit(s[0]) || s[0] == '-') && IsDigit(s[|s| - 1])
            && SingleLine(s)
  {
    MagnitudeText(n.whole, n.fraction);
    SingleLineConcat("-", PrintMagnitude(n.whole, n.fraction));
  }

  // ---------------------------------------------------------------- numbers that print otherwise

  /** A letter at some place, and nothing but letters, digits, points and signs. */
  ghost predicate OtherForm(s: string) {
    && (exists i | 0 <= i < |s| :: IsLetter(s[i]))
    && FormCharacters(s)
  }

  predicate FormCharacters(s: string) {
    forall i | 0 <= i < |s| :: IsLetter(s[i]) || IsDigit(s[i]) || s[i] == '.' || s[i] == '+' || s[i] == '-'
  }

  lemma ExponentOther(mantissa: string, e: string, exponent: string)
    requires FormCharacters(mantissa) && (e == "e+" || e == "e-") && AllDigits(exponent)
    ensures OtherForm(mantissa + e + exponent)
  {
    assert (mantissa + e + exponent)[|mantissa|] == 'e';
  }

  lemma MantissaCharacters(digits: string)
    requires AllDigits(digits)
    ensures FormCharacters(Mantissa(digits))
  {
  }

  lemma ExponentFormOther(whole: nat, fraction: string)
    requires AllDigits(fraction)
    ensures OtherForm(ExponentForm(whole, fraction))
  {
    var digits := PrintNat(whole);
    var zeros := LeadingZeros(fraction);
    MantissaCharacters(TrimZeros(digits + fraction));
    MantissaCharacters(fraction[zeros..]);
    ExponentOther(Mantissa(TrimZeros(digits + fraction)), "e+", PrintNat(|digits| - 1));
    ExponentOther(Mantissa(fraction[zeros..]), "e-", PrintNat(zeros + 1));
  }

  lemma InfinityOther()
    ensures OtherForm("Infinity")
  {
    assert IsLetter("Infinity"[0]);
  }

  lemma SignedOther(s: string)
    requires OtherForm(s)
    ensures OtherForm("-" + s)
  {
    var i :| 0 <= i < |s| && IsLetter(s[i]);
    assert ("-" + s)[i + 1] == s[i];
  }

  lemma PrintsOther(n: Number)
    requires !PrintsPlainly(n) && (n.Decimal? ==> AllDigits(n.fraction))
    ensures OtherForm(PrintNumber(n))
  {
    InfinityOther();
    var magnitude := if n.Infinite? then "Infinity" else ExponentForm(n.whole, n.fraction);
    if n.Decimal? {
      ExponentFormOther(n.whole, n.fraction);
    }
    SignedOther(magnitude);
  }

  lemma OtherFormText(p: string)
    requires OtherForm(p)
    ensures p != "" && SingleLine(p) && '\'' !in p && !IsSpace(p[0]) && !IsSpace(p[|p| - 1])
  {
    assert forall c :: IsDigit(c) || IsLetter(c) ==> !IsTerminator(c) && !IsSpace(c) && c != '\'';
  }

  /** A number that does not print plainly is not read back as a number. */
  lemma OtherIsNoNumber(p: string)
    requires OtherForm(p)
    ensures !ParseScalarValue(p).Num?
  {
    OtherFormText(p);
    assert Trim(p) == p by { TrimTight(p); }
    assert !Wrapped(p);
    if IsPlainNumber(p) {
      PlainNumberCharacters(p);
    }
  }

  lemma PlainNumberCharacters(s: string)
    requires IsPlainNumber(s)
    ensures forall i | 0 <= i < |s| :: !IsLetter(s[i])
  {
    var t := Unsigned(s);
    var n := DigitRun(t);
    assert forall i | 0 <= i < n :: t[i] == t[..n][i];
    assert forall i | n < i < |t| :: t[i] == t[n + 1..][i - n - 1];
    assert s == t || (s[0] == '-' && forall i | 0 < i < |s| :: s[i] == t[i - 1]);
  }

  lemma NumberIsNoWord(s: string)
    requires s != "" && (IsDigit(s[0]) || s[0] == '-')
    ensures !Wrapped(s) && s != "true" && s != "false"
  {
  }

  lemma PlainNumberLine(s: string)
    requires IsPlainNumber(s) && Trim(s) == s && !Wrapped(s) && s != "true" && s != "false"
    ensures ParseScalarValue(s) == Num(NumberOf(s))
  {
  }
}
