/** What a line of an update manifest says, whoever wrote it
    (scripts/lib/update-manifest.ts: the expressions of `parseUpdateManifest`,
    `parseScalarValue`, `stripSingleQuotes`). */
module ManifestReading {
  import opened Outcomes
  import opened Text
  import opened UpdateManifest
  import opened ManifestText
  import opened ManifestEvaluation

  // ---------------------------------------------------------------- quotes

  predicate HasPair(s: string) {
    exists i :: 0 <= i < |s| - 1 && s[i] == '\'' == s[i + 1]
  }

  lemma PairTail(s: string)
    requires s != ""
    ensures HasPair(s) <==> HasPair(s[1..]) || (|s| >= 2 && s[0] == '\'' == s[1])
  {
    if HasPair(s) {
      var i :| 0 <= i < |s| - 1 && s[i] == '\'' == s[i + 1];
      assert i > 0 ==> s[1..][i - 1] == '\'' == s[1..][i];
    }
    if HasPair(s[1..]) {
      var i :| 0 <= i < |s[1..]| - 1 && s[1..][i] == '\'' == s[1..][i + 1];
      assert s[i + 1] == '\'' == s[i + 2];
    }
  }

  /** A text without a pair stays as it is. */
  lemma {:induction false} UndoubleKeeps(s: string)
    requires !HasPair(s)
    ensures Undouble(s) == s
  {
    if |s| >= 2 {
      PairTail(s);
      UndoubleKeeps(s[1..]);
    }
  }

  lemma UndoubleFirst(s: string)
    requires s != "" && (|s| >= 2 ==> s[0] != '\'' || s[1] != '\'')
    ensures Undouble(s) == [s[0]] + Undouble(s[1..])
  {
  }

  lemma UndoublePair(s: string, b: string)
    requires s == "''" + b
    ensures Undouble(s) == "'" + Undouble(b)
  {
    assert s[2..] == b;
  }

  /** The leftmost pair becomes one quote, what comes before it stays, and so on from
      behind it. */
  lemma {:induction false} UndoubleMeans(a: string, b: string, s: string)
    requires !HasPair(a + "'") && s == a + "''" + b
    ensures Undouble(s) == a + "'" + Undouble(b)
  {
    if a == "" {
      UndoublePair(s, b);
    } else {
      var q := a + "'";
      PairTail(q);
      assert q[1..] == a[1..] + "'";
      UndoubleMeans(a[1..], b, s[1..]);
      assert s[0] == q[0] && s[1] == q[1];
      UndoubleFirst(s);
      assert a == [a[0]] + a[1..];
    }
  }

  // ---------------------------------------------------------------- numbers

  /** Digits with a sign before them or not, and with a point and more digits or not. */
  predicate NumberForm(t: string, negative: bool, digits: string, fraction: string) {
    && digits != "" && AllDigits(digits) && AllDigits(fraction)
    && t == (if negative then "-" else "") + (digits + (if fraction == "" then "" else "." + fraction))
  }

  /** The number written so: zeros that end the fraction do not matter, nor a sign on zero. */
  predicate Spells(n: Number, negative: bool, digits: string, fraction: string)
    requires AllDigits(digits)
  {
    && Canonical(n)
    && n.whole == ParseNat(digits)
    && n.fraction <= fraction && (forall i | |n.fraction| <= i < |fraction| :: fraction[i] == '0')
    && n.negative == (negative && (n.whole > 0 || n.fraction != ""))
  }

  function Pow10(n: nat): nat {
    if n == 0 then 1 else 10 * Pow10(n - 1)
  }

  lemma DigitsConcat(a: string, b: string)
    requires AllDigits(a) && AllDigits(b)
    ensures AllDigits(a + b)
  {
  }

  lemma DigitValue(c: char)
    requires IsDigit(c)
    ensures ParseNat([c]) == c as int - '0' as int
  {
    assert [c][..0] == "" && ParseNat("") == 0;
  }

  lemma OneDigitMore(s: string, c: char)
    requires AllDigits(s) && IsDigit(c)
    ensures AllDigits(s + [c]) && ParseNat(s + [c]) == 10 * ParseNat(s) + ParseNat([c])
  {
    DigitsConcat(s, [c]);
    DigitValue(c);
    assert (s + [c])[..|s|] == s;
  }

  /** From 10^21 on numbers are printed with an exponent. */
  lemma LargeMeans()
    ensures LARGE == Pow10(21)
  {
    assert Pow10(7) == 10_000_000;
    assert Pow10(14) == 100_000_000_000_000;
  }

  /** A row of digits is a number in base ten. */
  lemma {:induction false} DigitsValue(a: string, b: string)
    requires AllDigits(a) && AllDigits(b)
    ensures AllDigits(a + b) && ParseNat(a + b) == ParseNat(a) * Pow10(|b|) + ParseNat(b)
  {
    DigitsConcat(a, b);
    if b == "" {
      assert a + b == a;
    } else {
      var c, d := b[..|b| - 1], b[|b| - 1];
      DigitsValue(a, c);
      OneDigitMore(c, d);
      assert b == c + [d] && a + b == (a + c) + [d];
      OneDigitMore(a + c, d);
      TenTimes(ParseNat(a), Pow10(|c|), ParseNat(c), ParseNat([d]));
    }
  }

  lemma TenTimes(x: int, p: int, y: int, d: int)
    ensures 10 * (x * p + y) + d == x * (10 * p) + (10 * y + d)
  {
  }

  lemma SpelledOnce(n: Number, m: Number, negative: bool, digits: string, fraction: string)
    requires AllDigits(digits) && Spells(n, negative, digits, fraction) && Spells(m, negative, digits, fraction)
    ensures n == m
  {
  }

  lemma {:induction false} TrimmedZeros(s: string)
    ensures forall i | |TrimZeros(s)| <= i < |s| :: s[i] == '0'
  {
    if s != "" && s[|s| - 1] == '0' {
      TrimmedZeros(s[..|s| - 1]);
      assert forall i | 0 <= i < |s| - 1 :: s[i] == s[..|s| - 1][i];
    }
  }

  /** A text of the number form is read as the number it spells. */
  lemma FormIsRead(t: string, negative: bool, digits: string, fraction: string)
    requires NumberForm(t, negative, digits, fraction)
    ensures IsPlainNumber(t) && Spells(NumberOf(t), negative, digits, fraction)
    ensures t[0] == '-' <==> negative
    ensures digits == Unsigned(t)[..DigitRun(Unsigned(t))]
    ensures fraction == if |digits| < |Unsigned(t)| then Unsigned(t)[|digits| + 1..] else ""
  {
    var rest := if fraction == "" then "" else "." + fraction;
    var u := digits + rest;
    assert u[0] == digits[0];
    assert Unsigned(t) == u by { assert negative ==> t[1..] == u; }
    assert rest != "" ==> rest[0] == '.' && rest[1..] == fraction;
    DigitRunOf(digits, rest);
    assert u[..|digits|] == digits;
    assert rest != "" ==> u[|digits|] == '.' && u[|digits| + 1..] == fraction;
    TrimmedZeros(fraction);
  }

  /** A text read as a number has that form. */
  lemma PlainHasForm(t: string) returns (negative: bool, digits: string, fraction: string)
    requires IsPlainNumber(t)
    ensures NumberForm(t, negative, digits, fraction)
  {
    var u := Unsigned(t);
    var n := DigitRun(u);
    negative, digits := t[0] == '-', u[..n];
    fraction := if n < |u| then u[n + 1..] else "";
    assert u == digits + (if fraction == "" then "" else "." + fraction);
  }

  // ---------------------------------------------------------------- scalars

  predicate Quoted(t: string) {
    Wrapped(t) && |t| >= 2
  }

  ghost predicate LooksNumeric(t: string) {
    exists negative, digits, fraction :: NumberForm(t, negative, digits, fraction)
  }

  ghost predicate SpelledBy(t: string, n: Number) {
    exists negative, digits, fraction ::
      NumberForm(t, negative, digits, fraction) && Spells(n, negative, digits, fraction)
  }

  /** What a text says that has no white space around it. */
  ghost predicate ScalarMeans(t: string, v: Scalar) {
    match v
    case Bool(b) => t == if b then "true" else "false"
    case Num(n) => SpelledBy(t, n)
    case Str(text) =>
      if Quoted(t) then text == Undouble(t[1..|t| - 1])
      else text == t && t != "true" && t != "false" && !LooksNumeric(t)
  }

  lemma NumberText(t: string)
    ensures LooksNumeric(t) <==> IsPlainNumber(t)
    ensures LooksNumeric(t) ==> !Wrapped(t) && t != "true" && t != "false"
  {
    if LooksNumeric(t) {
      var negative, digits, fraction :| NumberForm(t, negative, digits, fraction);
      FormIsRead(t, negative, digits, fraction);
      assert negative || t[0] == digits[0];
    }
    if IsPlainNumber(t) {
      var negative, digits, fraction := PlainHasForm(t);
    }
  }

  lemma NumberMeans(t: string, n: Number)
    ensures SpelledBy(t, n) <==> IsPlainNumber(t) && NumberOf(t) == n
  {
    if SpelledBy(t, n) {
      var negative, digits, fraction :|
        NumberForm(t, negative, digits, fraction) && Spells(n, negative, digits, fraction);
      FormIsRead(t, negative, digits, fraction);
      SpelledOnce(n, NumberOf(t), negative, digits, fraction);
    }
    if IsPlainNumber(t) {
      var negative, digits, fraction := PlainHasForm(t);
      FormIsRead(t, negative, digits, fraction);
    }
  }

  /** A scalar is read as what its text says, whoever wrote it. */
  lemma ScalarIsRead(t: string, v: Scalar)
    requires Trim(t) == t
    ensures ParseScalarValue(t) == v <==> ScalarMeans(t, v)
  {
    assert ParseScalarValue(t) == if Quoted(t) then Str(Undouble(t[1..|t| - 1])) else UnquotedScalar(t);
    if Quoted(t) {
      QuotedMeans(t, Undouble(t[1..|t| - 1]), v);
    } else {
      UnquotedMeans(t, v);
    }
  }

  lemma QuotedMeans(t: string, inner: string, v: Scalar)
    requires Quoted(t) && inner == Undouble(t[1..|t| - 1])
    ensures v == Str(inner) <==> ScalarMeans(t, v)
  {
    NumberText(t);
    if v.Num? {
      NumberMeans(t, v.number);
    }
  }

  lemma UnquotedMeans(t: string, v: Scalar)
    requires !Quoted(t)
    ensures UnquotedScalar(t) == v <==> ScalarMeans(t, v)
  {
    NumberText(t);
    if v.Num? {
      NumberMeans(t, v.number);
    }
  }

  /** An unquoted text that is no number and neither `true` nor `false` is read as it stands. */
  lemma UnquotedIsItself(t: string)
    requires Trim(t) == t && !Quoted(t) && t != "true" && t != "false" && !LooksNumeric(t)
    ensures ParseScalarValue(t) == Str(t)
  {
    NumberText(t);
  }

  // ---------------------------------------------------------------- white space

  lemma {:induction false} TrimEndDrops(s: string)
    ensures Spaces(s[|TrimEnd(s)|..])
  {
    if s != "" && IsSpace(s[|s| - 1]) {
      TrimEndDrops(s[..|s| - 1]);
      assert s[|TrimEnd(s)|..] == s[..|s| - 1][|TrimEnd(s)|..] + [s[|s| - 1]];
    }
  }

  lemma {:induction false} TrimStartDrops(s: string)
    ensures Spaces(s[..|s| - |TrimStart(s)|])
  {
    if s != "" && IsSpace(s[0]) {
      TrimStartDrops(s[1..]);
      assert s[..|s| - |TrimStart(s)|] == [s[0]] + s[1..][..|s| - 1 - |TrimStart(s)|];
    }
  }

  lemma {:induction false} TrimEndSpaces(a: string, end: string)
    requires Spaces(end)
    ensures TrimEnd(a + end) == TrimEnd(a)
  {
    if end == "" {
      assert a + end == a;
    } else {
      assert (a + end)[..|a + end| - 1] == a + end[..|end| - 1];
      TrimEndSpaces(a, end[..|end| - 1]);
    }
  }

  lemma {:induction false} TrimStartSpaces(pad: string, t: string)
    requires Spaces(pad)
    ensures TrimStart(pad + t) == TrimStart(t)
  {
    if pad == "" {
      assert pad + t == t;
    } else {
      assert (pad + t)[1..] == pad[1..] + t;
      TrimStartSpaces(pad[1..], t);
    }
  }

  // ---------------------------------------------------------------- a field and its text

  ghost predicate FramedIn(raw: string, prefix: string, pad: string, text: string, end: string) {
    Spaces(pad) && Spaces(end) && raw == prefix + pad + text + end
  }

  /** The line is the prefix and then the text, with any white space around the text. */
  ghost predicate Framed(raw: string, prefix: string, text: string) {
    TopValue(text) && exists pad, end :: FramedIn(raw, prefix, pad, text, end)
  }

  lemma EndTight(s: string)
    requires s != "" && !IsSpace(s[|s| - 1])
    ensures TrimEnd(s) == s
  {
  }

  lemma StartTight(s: string)
    requires s != "" && !IsSpace(s[0])
    ensures TrimStart(s) == s
  {
  }

  lemma EndOf(line: string, pad: string, text: string)
    requires text != "" && !IsSpace(text[|text| - 1]) && line == pad + text
    ensures TrimEnd(line) == line
  {
    assert line[|line| - 1] == text[|text| - 1];
    EndTight(line);
  }

  lemma FramedLine(raw: string, prefix: string, pad: string, text: string, end: string, line: string)
    requires TopValue(text) && FramedIn(raw, prefix, pad, text, end) && line == prefix + pad + text
    ensures TrimEnd(raw) == line && TrimStart(line[|prefix|..]) == text
  {
    assert TrimEnd(raw) == line by {
      TrimEndSpaces(line, end);
      EndOf(line, prefix + pad, text);
    }
    assert line[|prefix|..] == pad + text by { BehindPrefix(prefix, pad, text); }
    StartOf(pad, text);
  }

  lemma BehindPrefix(prefix: string, pad: string, text: string)
    ensures (prefix + pad + text)[|prefix|..] == pad + text
  {
  }

  lemma StartOf(pad: string, text: string)
    requires Spaces(pad) && text != "" && !IsSpace(text[0])
    ensures TrimStart(pad + text) == text
  {
    TrimStartSpaces(pad, text);
    StartTight(text);
  }

  /** The line without the white space at its end, cut behind a prefix, and the text. */
  ghost predicate Cut(line: string, prefix: string, text: string) {
    prefix <= line && text == TrimStart(line[|prefix|..]) && text != "" && SingleLine(text)
  }

  lemma StartSplit(s: string, t: string) returns (pad: string)
    requires t == TrimStart(s)
    ensures Spaces(pad) && s == pad + t && (t != "" ==> !IsSpace(t[0]))
  {
    pad := s[..|s| - |t|];
    assert s == pad + t;
    TrimStartDrops(s);
  }

  lemma EndSplit(s: string, t: string) returns (end: string)
    requires t == TrimEnd(s)
    ensures Spaces(end) && s == t + end && (t != "" ==> !IsSpace(t[|t| - 1]))
  {
    TrimEndDrops(s);
    end := s[|t|..];
  }

  lemma PrefixSplit(line: string, prefix: string) returns (rest: string)
    requires prefix <= line
    ensures line == prefix + rest && rest == line[|prefix|..]
  {
    rest := line[|prefix|..];
  }

  lemma LastOf(line: string, a: string, text: string)
    requires text != "" && line == a + text
    ensures line[|line| - 1] == text[|text| - 1]
  {
  }

  lemma Regroup(line: string, prefix: string, rest: string, pad: string, text: string)
    requires line == prefix + rest && rest == pad + text
    ensures line == prefix + pad + text
  {
  }

  lemma CutSplit(line: string, prefix: string, text: string) returns (pad: string)
    requires Cut(line, prefix, text)
    ensures Spaces(pad) && line == prefix + pad + text && !IsSpace(text[0])
  {
    var rest := PrefixSplit(line, prefix);
    pad := StartSplit(rest, text);
    Regroup(line, prefix, rest, pad, text);
  }

  lemma FramedBy(raw: string, prefix: string, pad: string, text: string, end: string)
    requires TopValue(text) && FramedIn(raw, prefix, pad, text, end)
    ensures Framed(raw, prefix, text)
  {
  }

  lemma CutIsFramed(raw: string, prefix: string, text: string)
    requires Cut(TrimEnd(raw), prefix, text)
    ensures Framed(raw, prefix, text)
  {
    var line := TrimEnd(raw);
    var end := EndSplit(raw, line);
    var pad := CutSplit(line, prefix, text);
    LastOf(line, prefix + pad, text);
    FramedBy(raw, prefix, pad, text, end);
  }

  lemma FramedIsCut(raw: string, prefix: string, text: string)
    requires Framed(raw, prefix, text)
    ensures Cut(TrimEnd(raw), prefix, text)
  {
    var pad, end :| FramedIn(raw, prefix, pad, text, end);
    FramedLine(raw, prefix, pad, text, end, prefix + pad + text);
  }

  lemma CutFramed(raw: string, prefix: string, text: string)
    ensures Cut(TrimEnd(raw), prefix, text) <==> Framed(raw, prefix, text)
  {
    if Cut(TrimEnd(raw), prefix, text) {
      CutIsFramed(raw, prefix, text);
    }
    if Framed(raw, prefix, text) {
      FramedIsCut(raw, prefix, text);
    }
  }

  lemma FieldFramed(raw: string, prefix: string, text: string)
    ensures Field(TrimEnd(raw), prefix) == Some(text) <==> Framed(raw, prefix, text)
  {
    CutFramed(raw, prefix, text);
  }

  ghost predicate SizeSaid(raw: string, digits: string, size: nat) {
    Framed(raw, SIZE_FIELD, digits) && AllDigits(digits) && size == ParseNat(digits)
  }

  lemma SizeFramed(raw: string, size: nat)
    ensures SizeField(TrimEnd(raw)) == Some(size) <==> exists digits :: SizeSaid(raw, digits, size)
  {
    var line := TrimEnd(raw);
    if SizeField(line) == Some(size) {
      var group := TrimStart(line[|SIZE_FIELD|..]);
      DigitsText(group);
      CutFramed(raw, SIZE_FIELD, group);
      assert SizeSaid(raw, group, size);
    }
    if digits :| SizeSaid(raw, digits, size) {
      CutFramed(raw, SIZE_FIELD, digits);
    }
  }

  lemma KeyCut(line: string, key: string)
    requires IsKey(key) && key + ":" <= line
    ensures IndexOf(line, ':') == |key| && line[..|key|] == key
  {
    NoColon(key);
    assert line == key + [':'] + line[|key| + 1..];
    IndexAfter(key, ':', line[|key| + 1..]);
  }

  /** The line is the key, a colon and the rest. */
  lemma TopCut(line: string, key: string, rest: string, text: string)
    requires line == key + ":" + rest && IsKey(key)
    ensures TopField(line) == Some((key, text)) <==> text == TrimStart(rest) && text != "" && SingleLine(text)
  {
    KeyCut(line, key);
    assert line[|key| + 1..] == rest;
  }

  lemma TopSplit(line: string)
    requires TopField(line).Some?
    ensures var key := TopField(line).value.0; IsKey(key) && key + ":" <= line
  {
    var i := IndexOf(line, ':');
    assert line[..i + 1] == line[..i] + ":";
  }

  lemma TopIsCut(line: string, key: string, text: string)
    ensures TopField(line) == Some((key, text)) <==> IsKey(key) && Cut(line, key + ":", text)
  {
    if TopField(line) == Some((key, text)) {
      TopSplit(line);
    }
    if IsKey(key) && key + ":" <= line {
      TopCut(line, key, line[|key + ":"|..], text);
    }
  }

  lemma TopFramed(raw: string, key: string, text: string)
    ensures TopField(TrimEnd(raw)) == Some((key, text)) <==> IsKey(key) && Framed(raw, key + ":", text)
  {
    CutFramed(raw, key + ":", text);
    TopIsCut(TrimEnd(raw), key, text);
  }

  // ---------------------------------------------------------------- the line that says it

  /** What a url or hash is: quoted or as it stands; a lone quote is nothing. */
  predicate FieldMeans(text: string, value: string) {
    if Quoted(text) then value == Undouble(text[1..|text| - 1])
    else if text == "'" then value == ""
    else value == text
  }

  lemma NormalMeans(text: string, value: string)
    requires Trim(text) == text
    ensures Normal(text) == value <==> FieldMeans(text, value)
  {
  }

  ghost predicate Says(raw: string, l: Line) {
    match l
    case EmptyLine => Spaces(raw)
    case UrlLine(url) => exists text :: Framed(raw, URL_FIELD, text) && FieldMeans(text, url)
    case ShaLine(sha512) => exists text :: Framed(raw, SHA_FIELD, text) && FieldMeans(text, sha512)
    case SizeLine(size) => exists digits :: SizeSaid(raw, digits, size)
    case FilesLine => FilesSaid(raw)
    case EntryLine(key, v) => EntrySays(raw, key, v)
    case OtherLine => SaysNothing(raw)
  }

  ghost predicate FilesSaid(raw: string) {
    exists end :: Spaces(end) && raw == "files:" + end
  }

  ghost predicate EntrySays(raw: string, key: string, v: Scalar) {
    exists text :: EntrySaid(raw, key, text, v)
  }

  ghost predicate EntrySaid(raw: string, key: string, text: string, v: Scalar) {
    IsKey(key) && Framed(raw, key + ":", text) && ScalarMeans(text, v)
  }

  ghost predicate SaysNothing(raw: string) {
    && !Spaces(raw)
    && !FilesSaid(raw)
    && (forall text :: !Framed(raw, URL_FIELD, text))
    && (forall text :: !Framed(raw, SHA_FIELD, text))
    && (forall digits :: Framed(raw, SIZE_FIELD, digits) ==> !AllDigits(digits))
    && (forall key, text :: IsKey(key) ==> !Framed(raw, key + ":", text))
  }

  /** The kinds of line exclude each other, so that the order of the checks does not matter. */
  lemma KindsExclude(line: string)
    ensures var l := ReadTrimmed(line);
            && (l.EmptyLine? <==> line == "")
            && (l.UrlLine? <==> Field(line, URL_FIELD).Some?)
            && (l.ShaLine? <==> Field(line, SHA_FIELD).Some?)
            && (l.SizeLine? <==> SizeField(line).Some?)
            && (l.FilesLine? <==> line == "files:")
            && (l.EntryLine? <==> TopField(line).Some?)
  {
    Prefixes();
    if line != "" && line[0] == ' ' {
      IndentedIsNoField(line);
      if URL_FIELD <= line {
        OtherPrefix(line, URL_FIELD, SHA_FIELD, 2);
        OtherPrefix(line, URL_FIELD, SIZE_FIELD, 2);
      }
      if SHA_FIELD <= line {
        OtherPrefix(line, SHA_FIELD, SIZE_FIELD, 5);
      }
    } else {
      NotIndented(line);
    }
  }

  lemma NotIndented(line: string)
    requires line == "" || line[0] != ' '
    ensures Field(line, URL_FIELD) == Field(line, SHA_FIELD) == None && SizeField(line) == None
    ensures line == "" || line == "files:" ==> TopField(line).None?
  {
    Prefixes();
    if line == "files:" {
      assert IndexOf(line, ':') < |line| ==> TrimStart(line[6..]) == "";
      NoColon("files");
      IndexAfter("files", ':', "");
      assert line == "files" + [':'] + "";
    }
  }

  lemma TightTrim(text: string)
    requires TopValue(text)
    ensures Trim(text) == text
  {
    TrimTight(text);
  }

  lemma SaysEmpty(raw: string)
    ensures TrimEnd(raw) == "" <==> Spaces(raw)
  {
    TrimEndDrops(raw);
    if Spaces(raw) {
      TrimEndSpaces("", raw);
      assert "" + raw == raw;
    }
    assert raw[0..] == raw;
  }

  lemma SaysFiles(raw: string)
    ensures TrimEnd(raw) == "files:" <==> FilesSaid(raw)
  {
    if TrimEnd(raw) == "files:" {
      TrimEndDrops(raw);
      assert raw == "files:" + raw[6..];
    }
    if end :| Spaces(end) && raw == "files:" + end {
      TrimEndSpaces("files:", end);
      assert "files:"[5] == ':';
    }
  }

  lemma SaysField(raw: string, prefix: string, value: string)
    ensures Field(TrimEnd(raw), prefix).Some? && Normal(Field(TrimEnd(raw), prefix).value) == value
       <==> exists text :: Framed(raw, prefix, text) && FieldMeans(text, value)
  {
    var f := Field(TrimEnd(raw), prefix);
    if f.Some? {
      FieldFramed(raw, prefix, f.value);
      FramedMeans(raw, prefix, f.value, value);
    }
    if text :| Framed(raw, prefix, text) && FieldMeans(text, value) {
      FieldFramed(raw, prefix, text);
      FramedMeans(raw, prefix, text, value);
    }
  }

  lemma FramedMeans(raw: string, prefix: string, text: string, value: string)
    requires Framed(raw, prefix, text)
    ensures Normal(text) == value <==> FieldMeans(text, value)
  {
    TightTrim(text);
    NormalMeans(text, value);
  }

  lemma SaysEntry(raw: string, key: string, v: Scalar)
    ensures ReadTop(TrimEnd(raw)) == EntryLine(key, v) <==> EntrySays(raw, key, v)
  {
    var f := TopField(TrimEnd(raw));
    if f.Some? && f.value.0 == key && ParseScalarValue(f.value.1) == v {
      TopFramed(raw, key, f.value.1);
      TextSaid(raw, key, f.value.1, v);
    }
    if text :| EntrySaid(raw, key, text, v) {
      TopFramed(raw, key, text);
      TextSaid(raw, key, text, v);
    }
  }

  lemma TextSaid(raw: string, key: string, text: string, v: Scalar)
    requires IsKey(key) && Framed(raw, key + ":", text)
    ensures EntrySaid(raw, key, text, v) <==> ParseScalarValue(text) == v
  {
    TightTrim(text);
    ScalarIsRead(text, v);
  }

  lemma OtherField(raw: string, prefix: string)
    ensures Field(TrimEnd(raw), prefix).None? <==> forall text :: !Framed(raw, prefix, text)
  {
    var f := Field(TrimEnd(raw), prefix);
    if f.Some? {
      FieldFramed(raw, prefix, f.value);
    }
    if text :| Framed(raw, prefix, text) {
      FieldFramed(raw, prefix, text);
    }
  }

  lemma OtherSize(raw: string)
    ensures SizeField(TrimEnd(raw)).None? <==> forall digits :: Framed(raw, SIZE_FIELD, digits) ==> !AllDigits(digits)
  {
    var f := SizeField(TrimEnd(raw));
    if f.Some? {
      SizeFramed(raw, f.value);
    } else {
      forall digits | Framed(raw, SIZE_FIELD, digits) ensures !AllDigits(digits) {
        if AllDigits(digits) {
          SizeFramed(raw, ParseNat(digits));
          assert SizeSaid(raw, digits, ParseNat(digits));
        }
      }
    }
  }

  lemma OtherTop(raw: string)
    ensures TopField(TrimEnd(raw)).None? <==> forall key, text :: IsKey(key) ==> !Framed(raw, key + ":", text)
  {
    var f := TopField(TrimEnd(raw));
    if f.Some? {
      TopFramed(raw, f.value.0, f.value.1);
    } else {
      forall key, text ensures IsKey(key) ==> !Framed(raw, key + ":", text) {
        TopFramed(raw, key, text);
      }
    }
  }

  lemma OtherRead(line: string)
    ensures ReadTrimmed(line) == OtherLine
       <==> line != "" && line != "files:" && Field(line, URL_FIELD).None? && Field(line, SHA_FIELD).None?
            && SizeField(line).None? && TopField(line).None?
  {
  }

  lemma SaysOther(raw: string)
    ensures ReadLine(raw) == OtherLine <==> SaysNothing(raw)
  {
    OtherRead(TrimEnd(raw));
    SaysEmpty(raw);
    SaysFiles(raw);
    OtherField(raw, URL_FIELD);
    OtherField(raw, SHA_FIELD);
    OtherSize(raw);
    OtherTop(raw);
  }

  lemma ReadFields(line: string)
    ensures forall url :: ReadTrimmed(line) == UrlLine(url)
                     <==> Field(line, URL_FIELD).Some? && Normal(Field(line, URL_FIELD).value) == url
    ensures forall sha :: ReadTrimmed(line) == ShaLine(sha)
                     <==> Field(line, SHA_FIELD).Some? && Normal(Field(line, SHA_FIELD).value) == sha
  {
    KindsExclude(line);
  }

  lemma ReadSizeLine(line: string, size: nat)
    ensures ReadTrimmed(line) == SizeLine(size) <==> SizeField(line) == Some(size)
  {
    KindsExclude(line);
  }

  lemma EntryAgrees(line: string, key: string, v: Scalar, said: bool)
    requires ReadTop(line) == EntryLine(key, v) <==> said
    ensures ReadTrimmed(line) == EntryLine(key, v) <==> said
  {
    KindsExclude(line);
  }

  /** The three kinds of line that begin in a fixed way. */
  lemma FieldNames()
    ensures URL_FIELD == "  - url:" && SHA_FIELD == "    sha512:" && SIZE_FIELD == "    size:"
  {
  }

  /** A line is read as what it says: no other reading is possible, whoever wrote it. */
  lemma ReadsAsSaid(raw: string, l: Line)
    ensures ReadLine(raw) == l <==> Says(raw, l)
  {
    if l.UrlLine? || l.ShaLine? {
      ReadsField(raw, l);
    } else {
      ReadsOther(raw, l);
    }
  }

  lemma ReadsField(raw: string, l: Line)
    requires l.UrlLine? || l.ShaLine?
    ensures ReadLine(raw) == l <==> Says(raw, l)
  {
    ReadFields(TrimEnd(raw));
    if l.UrlLine? {
      SaysField(raw, URL_FIELD, l.text);
    } else {
      SaysField(raw, SHA_FIELD, l.text);
    }
  }

  lemma ReadsOther(raw: string, l: Line)
    requires !l.UrlLine? && !l.ShaLine?
    ensures ReadLine(raw) == l <==> Says(raw, l)
  {
    match l
    case OtherLine => SaysOther(raw);
    case EntryLine(key, v) => ReadsEntry(raw, key, v);
    case SizeLine(size) => ReadsSize(raw, size);
    case _ => ReadsBare(raw);
  }

  lemma ReadsEntry(raw: string, key: string, v: Scalar)
    ensures ReadLine(raw) == EntryLine(key, v) <==> Says(raw, EntryLine(key, v))
  {
    SaysEntry(raw, key, v);
    EntryAgrees(TrimEnd(raw), key, v, EntrySays(raw, key, v));
  }

  lemma ReadsSize(raw: string, size: nat)
    ensures ReadLine(raw) == SizeLine(size) <==> Says(raw, SizeLine(size))
  {
    ReadSizeLine(TrimEnd(raw), size);
    SizeFramed(raw, size);
  }

  lemma ReadsBare(raw: string)
    ensures ReadLine(raw) == EmptyLine <==> Spaces(raw)
    ensures ReadLine(raw) == FilesLine <==> FilesSaid(raw)
  {
    KindsExclude(TrimEnd(raw));
    SaysEmpty(raw);
    SaysFiles(raw);
  }
}
