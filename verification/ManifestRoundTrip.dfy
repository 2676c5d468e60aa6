/** Which update manifests survive printing and parsing, and the two loops
    (scripts/lib/update-manifest.ts: `parseUpdateManifest`, `serializeUpdateManifest`). */
module ManifestRoundTrip {
  import opened Outcomes
  import opened Text
  import opened UpdateManifest
  import opened ManifestText
  import opened ManifestEvaluation

  /** A url or hash that is not blank, has no white space around it and is not wrapped in
      single quotes. */
  predicate Plain(s: string) {
    s != "" && Trim(s) == s && !Wrapped(s)
  }

  ghost predicate PlainFiles(files: seq<File>) {
    forall f | f in files :: Plain(f.url) && Plain(f.sha512)
  }

  /** What a manifest must satisfy to be read back as it was. */
  ghost predicate Printable(m: Manifest) {
    InRange(m) && PlainFiles(m.files)
  }

  // ---------------------------------------------------------------- what every parsed manifest satisfies

  predicate LineRead(line: Line) {
    match line
    case UrlLine(text) => SingleLine(text)
    case ShaLine(text) => SingleLine(text)
    case EntryLine(key, value) => IsKey(key) && ScalarRead(value)
    case _ => true
  }

  lemma SliceOneLine(s: string, i: nat, j: nat)
    requires SingleLine(s) && i <= j <= |s|
    ensures SingleLine(s[i..j])
  {
  }

  lemma {:induction false} UndoubleOneLine(s: string)
    requires SingleLine(s)
    ensures SingleLine(Undouble(s))
  {
    if |s| >= 2 {
      if s[0] == '\'' && s[1] == '\'' {
        SliceOneLine(s, 2, |s|);
        assert s[2..|s|] == s[2..];
        UndoubleOneLine(s[2..]);
        SingleLineConcat("'", Undouble(s[2..]));
      } else {
        SliceOneLine(s, 1, |s|);
        assert s[1..|s|] == s[1..];
        UndoubleOneLine(s[1..]);
        SingleLineConcat([s[0]], Undouble(s[1..]));
      }
    }
  }

  lemma StripOneLine(s: string)
    requires SingleLine(s)
    ensures SingleLine(StripSingleQuotes(s))
  {
    if Wrapped(s) && |s| > 1 {
      SliceOneLine(s, 1, |s| - 1);
      UndoubleOneLine(s[1..|s| - 1]);
    }
  }

  lemma NormalOneLine(s: string)
    requires SingleLine(s)
    ensures SingleLine(Normal(s))
  {
    TrimOneLine(s);
    StripOneLine(Trim(s));
  }

  lemma ScalarOneLine(raw: string)
    requires SingleLine(raw)
    ensures ScalarRead(ParseScalarValue(raw))
  {
    TrimOneLine(raw);
    TrimmedRead(raw, Trim(raw));
  }

  lemma TrimmedRead(raw: string, t: string)
    requires t == Trim(raw) && SingleLine(t)
    ensures ScalarRead(ParseScalarValue(raw))
  {
    if Wrapped(t) && |t| >= 2 {
      var inner := Undouble(t[1..|t| - 1]);
      assert SingleLine(inner) by { InnerOneLine(t); }
      assert ParseScalarValue(raw) == Str(inner);
    } else {
      assert ParseScalarValue(raw) == UnquotedScalar(t);
      UnquotedRead(t);
    }
  }

  lemma InnerOneLine(t: string)
    requires SingleLine(t) && |t| >= 2
    ensures SingleLine(Undouble(t[1..|t| - 1]))
  {
    SliceOneLine(t, 1, |t| - 1);
    UndoubleOneLine(t[1..|t| - 1]);
  }

  lemma UnquotedRead(value: string)
    requires SingleLine(value)
    ensures ScalarRead(UnquotedScalar(value))
  {
  }

  lemma FieldOneLine(line: string, prefix: string)
    requires Field(line, prefix).Some?
    ensures SingleLine(Field(line, prefix).value)
  {
  }

  lemma ReadIsRead(raw: string)
    ensures LineRead(ReadLine(raw))
  {
    var line := TrimEnd(raw);
    if Field(line, URL_FIELD).Some? {
      FieldOneLine(line, URL_FIELD);
      NormalOneLine(Field(line, URL_FIELD).value);
    } else if Field(line, SHA_FIELD).Some? {
      FieldOneLine(line, SHA_FIELD);
      NormalOneLine(Field(line, SHA_FIELD).value);
    } else {
      TopIsRead(line);
    }
  }

  lemma TopIsRead(line: string)
    ensures LineRead(ReadTop(line))
  {
    if TopField(line).Some? {
      ScalarOneLine(TopField(line).value.1);
    }
  }

  ghost predicate StateRead(st: State) {
    && (forall f | f in st.files :: FileRead(f))
    && (forall k | k in st.extras :: ExtraRead(k, st.extras[k]))
    && (st.version.Some? ==> SingleLine(st.version.value))
    && (st.releaseDate.Some? ==> SingleLine(st.releaseDate.value))
    && (st.current.Some? ==> PartialRead(st.current.value))
  }

  predicate PartialRead(p: Partial) {
    SingleLine(p.url) && (p.sha512.Some? ==> SingleLine(p.sha512.value))
  }

  lemma FinalizeKeeps(st: State, n: nat)
    requires StateRead(st) && Finalize(st, n).Ok?
    ensures StateRead(Finalize(st, n).value) && Finalize(st, n).value.current.None?
  {
  }

  lemma EnterKeeps(st: State, key: string, value: Scalar, n: nat)
    requires StateRead(st) && IsKey(key) && ScalarRead(value) && Enter(st, key, value, n).Ok?
    ensures StateRead(Enter(st, key, value, n).value)
  {
  }

  lemma ApplyKeeps(st: State, line: Line, n: nat)
    requires StateRead(st) && LineRead(line) && ApplyLine(st, line, n).Ok?
    ensures StateRead(ApplyLine(st, line, n).value)
  {
    match line
    case EmptyLine =>
    case UrlLine(_) => FinalizeKeeps(st, n);
    case ShaLine(_) =>
    case SizeLine(_) =>
    case FilesLine =>
    case OtherLine =>
    case EntryLine(key, value) =>
      var s := if st.inFiles && st.current.Some? then Finalize(st, n).value else st;
      if st.inFiles && st.current.Some? {
        FinalizeKeeps(st, n);
      }
      EnterKeeps(s.(inFiles := false), key, value, n);
  }

  lemma {:induction false} ApplyLinesKeep(st: State, lines: seq<string>, n: nat)
    requires StateRead(st) && ApplyLines(st, ReadLines(lines), n).Ok?
    ensures StateRead(ApplyLines(st, ReadLines(lines), n).value)
    decreases |lines|
  {
    if lines != [] {
      var line := ReadLine(lines[0]);
      ApplyCons(st, line, ReadLines(lines[1..]), n);
      ReadIsRead(lines[0]);
      ApplyKeeps(st, line, n);
      ApplyLinesKeep(ApplyLine(st, line, n).value, lines[1..], n + 1);
    }
  }

  lemma FinishKeeps(st: State, n: nat)
    requires StateRead(st) && Finish(st, n).Ok?
    ensures WasRead(Finish(st, n).value)
  {
    FinalizeKeeps(st, n);
  }

  /** Every manifest the parser returns has a version, a date and a file, single-line
      strings, whole sizes, and extras with legal unreserved keys and canonical numbers. */
  lemma ParsedWasRead(raw: string)
    requires Parse(raw).Ok?
    ensures WasRead(Parse(raw).value)
  {
    var lines := SplitLines(raw);
    ApplyLinesKeep(START, lines, 1);
    FinishKeeps(ApplyLines(START, ReadLines(lines), 1).value, |lines|);
  }

  // ---------------------------------------------------------------- the round trip

  lemma NormalPlain(s: string)
    ensures Plain(s) <==> Trim(s) != "" && Normal(s) == s
  {
    StripShorter(Trim(s));
    TrimShorter(s);
  }

  lemma StripShorter(s: string)
    ensures if Wrapped(s) then |StripSingleQuotes(s)| < |s| else StripSingleQuotes(s) == s
  {
  }

  lemma TrimShorter(s: string)
    ensures |Trim(s)| <= |s|
  {
  }

  lemma EntryPlain(f: File)
    requires IsWhole(f.size)
    ensures Plain(f.url) && Plain(f.sha512) <==> Filled(EntryOf(f)) && ToFile(EntryOf(f)) == f
  {
    NormalPlain(f.url);
    NormalPlain(f.sha512);
  }

  lemma {:induction false} EntriesPlain(files: seq<File>)
    requires forall f | f in files :: IsWhole(f.size)
    ensures PlainFiles(files)
       <==> (forall e | e in EntriesOf(files) :: Filled(e)) && ToFiles(EntriesOf(files)) == files
  {
    if files != [] {
      EntryPlain(files[0]);
      EntriesPlain(files[1..]);
      EntriesStep(files);
      if forall e | e in EntriesOf(files) :: Filled(e) {
        ConsEqual(ToFile(EntryOf(files[0])), ToFiles(EntriesOf(files[1..])), files);
      }
    }
  }

  lemma ConsEqual(f: File, fs: seq<File>, files: seq<File>)
    requires files != []
    ensures [f] + fs == files <==> f == files[0] && fs == files[1..]
  {
    assert ([f] + fs)[1..] == fs;
  }

  lemma EntriesStep(files: seq<File>)
    requires files != []
    ensures PlainFiles(files) <==> (Plain(files[0].url) && Plain(files[0].sha512)) && PlainFiles(files[1..])
    ensures (forall e | e in EntriesOf(files) :: Filled(e))
       <==> Filled(EntryOf(files[0])) && forall e | e in EntriesOf(files[1..]) :: Filled(e)
  {
    assert forall f :: f in files <==> f == files[0] || f in files[1..];
    assert forall e :: e in EntriesOf(files) <==> e == EntryOf(files[0]) || e in EntriesOf(files[1..]);
  }

  // What is read of the lines of a printed manifest holds no number with an exponent.

  predicate PlainLine(line: Line) {
    match line
    case SizeLine(size) => size < LARGE
    case EntryLine(_, value) => PlainScalar(value)
    case _ => true
  }

  ghost predicate PlainLines(lines: seq<Line>) {
    forall l | l in lines :: PlainLine(l)
  }

  ghost predicate PlainState(st: State) {
    && (forall f | f in st.files :: PrintsPlainly(f.size))
    && (forall k | k in st.extras :: PlainScalar(st.extras[k]))
    && (st.current.Some? && st.current.value.size.Some? ==> st.current.value.size.value < LARGE)
  }

  lemma ApplyPlain(st: State, line: Line, n: nat)
    requires PlainState(st) && PlainLine(line) && ApplyLine(st, line, n).Ok?
    ensures PlainState(ApplyLine(st, line, n).value)
  {
  }

  lemma {:induction false} ApplyLinesPlain(st: State, lines: seq<Line>, n: nat)
    requires PlainState(st) && PlainLines(lines) && ApplyLines(st, lines, n).Ok?
    ensures PlainState(ApplyLines(st, lines, n).value)
    decreases |lines|
  {
    if lines != [] {
      ApplyPlain(st, lines[0], n);
      ApplyLinesPlain(ApplyLine(st, lines[0], n).value, lines[1..], n + 1);
    }
  }

  lemma ReadOtherSize(p: string)
    requires OtherForm(p)
    ensures ReadLine(SIZE_FIELD + " " + p) == OtherLine
  {
    var line := SIZE_FIELD + " " + p;
    OtherFormText(p);
    TrimmedLine(SIZE_FIELD, p);
    Prefixes();
    AfterPrefix(SIZE_FIELD, p);
    OtherPrefix(line, SIZE_FIELD, URL_FIELD, 2);
    OtherPrefix(line, SIZE_FIELD, SHA_FIELD, 5);
    IndentedIsNoField(line);
    assert SizeField(line) == None;
    assert line[0] != "files:"[0];
    Unread(line);
  }

  lemma SizePlain(size: Number)
    requires IsWhole(size)
    ensures PlainLine(ReadLine(SIZE_FIELD + " " + PrintNumber(size)))
  {
    if PrintsPlainly(size) {
      ReadWhole(size);
    } else {
      PrintsOther(size);
      ReadOtherSize(PrintNumber(size));
    }
  }

  lemma UrlPlain(url: string)
    requires SingleLine(url)
    ensures PlainLine(ReadLine(URL_FIELD + " " + url))
  {
    ReadUrl(url);
  }

  lemma ShaPlain(sha: string)
    requires SingleLine(sha)
    ensures PlainLine(ReadLine(SHA_FIELD + " " + sha))
  {
    ReadSha(sha);
  }

  lemma FilePlain(f: File)
    requires FileRead(f)
    ensures PlainLines(ReadLines(FileLines(f)))
  {
    var lines := FileLines(f);
    UrlPlain(f.url);
    ShaPlain(f.sha512);
    SizePlain(f.size);
    ReadThree(lines[0], lines[1], lines[2]);
  }

  lemma PlainConcat(a: seq<Line>, b: seq<Line>)
    requires PlainLines(a) && PlainLines(b)
    ensures PlainLines(a + b)
  {
  }

  lemma {:induction false} FilesPlain(files: seq<File>)
    requires forall f | f in files :: FileRead(f)
    ensures PlainLines(ReadLines(FilesLines(files)))
  {
    if files != [] {
      FilePlain(files[0]);
      FilesPlain(files[1..]);
      ReadLinesConcat(FileLines(files[0]), FilesLines(files[1..]));
      PlainConcat(ReadLines(FileLines(files[0])), ReadLines(FilesLines(files[1..])));
    }
  }

  lemma ExtraPlain(key: string, v: Scalar)
    requires IsKey(key) && ScalarRead(v)
    ensures PlainLine(ReadLine(ExtraLine(key, v)))
  {
    ScalarText(v);
    ReadEntry(key, SerializeScalarValue(v));
    if PlainScalar(v) {
      ScalarReadsBack(v);
    } else {
      PrintsOther(v.number);
      OtherIsNoNumber(PrintNumber(v.number));
    }
  }

  lemma {:induction false} ExtrasPlain(keys: seq<string>, extras: map<string, Scalar>)
    requires forall k | k in keys :: k in extras && ExtraRead(k, extras[k])
    ensures PlainLines(ReadLines(ExtraLines(keys, extras)))
  {
    if keys != [] {
      var line := ExtraLine(keys[0], extras[keys[0]]);
      assert ExtraRead(keys[0], extras[keys[0]]);
      ExtraPlain(keys[0], extras[keys[0]]);
      ExtrasPlain(keys[1..], extras);
      ReadLinesConcat([line], ExtraLines(keys[1..], extras));
      assert ReadLines([line]) == [ReadLine(line)] + ReadLines([]);
    }
  }

  lemma EndsPlain(version: string, releaseDate: string)
    ensures PlainLines(HeadEntries(version)) && PlainLines(TailEntries(releaseDate))
  {
  }

  lemma PrintedPlain(m: Manifest, keys: seq<string>)
    requires WasRead(m) && forall k | k in keys :: k in m.extras
    ensures PlainLines(ReadLines(Lines(m, keys)))
  {
    var a, b, c, d := HeadLines(m), FilesLines(m.files), ExtraLines(keys, m.extras), TailLines(m);
    EndsPlain(m.version, m.releaseDate);
    assert PlainLines(ReadLines(a)) by { ReadHead(m); }
    assert PlainLines(ReadLines(b)) by { FilesPlain(m.files); }
    assert PlainLines(ReadLines(c)) by { ExtrasPlain(keys, m.extras); }
    assert PlainLines(ReadLines(d)) by { ReadTail(m); }
    FourPlain(a, b, c, d);
  }

  lemma FourPlain(a: seq<string>, b: seq<string>, c: seq<string>, d: seq<string>)
    requires PlainLines(ReadLines(a)) && PlainLines(ReadLines(b)) && PlainLines(ReadLines(c)) && PlainLines(ReadLines(d))
    ensures PlainLines(ReadLines(a + b + c + d))
  {
    ReadFour(a, b, c, d);
    PlainConcat(ReadLines(b), ReadLines(c));
    PlainConcat(ReadLines(b) + ReadLines(c), ReadLines(d));
    PlainConcat(ReadLines(a), ReadLines(b) + ReadLines(c) + ReadLines(d));
  }

  /** Reading a printed manifest never gives a number that prints with an exponent. */
  lemma RereadPlain(m: Manifest, keys: seq<string>)
    requires WasRead(m) && forall k | k in keys :: k in m.extras
    requires Parse(JoinLines(Lines(m, keys))).Ok?
    ensures PlainNumbers(Parse(JoinLines(Lines(m, keys))).value)
  {
    var lines := Lines(m, keys);
    LinesOneLine(m, keys);
    ParseJoined(lines);
    PrintedPlain(m, keys);
    ApplyLinesPlain(START, ReadLines(lines), 1);
    FinishPlain(ApplyLines(START, ReadLines(lines), 1).value, |lines|);
  }

  lemma FinishPlain(st: State, n: nat)
    requires PlainState(st) && Finish(st, n).Ok?
    ensures PlainNumbers(Finish(st, n).value)
  {
  }

  /** Parsing a serialised manifest gives the manifest back exactly when its version, date
      and files are non-empty; its strings are on one line; its urls and hashes are not
      blank, trimmed and not wrapped in single quotes; its sizes are whole; its extras have
      legal, unreserved keys; and its sizes and numeric extras are plainly printed. */
  lemma RoundTrip(m: Manifest, text: string)
    requires Prints(m, text)
    ensures Parse(text) == Ok(m) <==> Printable(m)
  {
    var keys :| SortedKeys(m.extras.Keys, keys) && text == JoinLines(Lines(m, keys));
    if Parse(text) == Ok(m) {
      ParsedWasRead(text);
      RereadPlain(m, keys);
    }
    if InRange(m) {
      EntriesPlain(m.files);
      if forall e | e in EntriesOf(m.files) :: Filled(e) {
        Evaluate(m, keys);
      } else {
        EvaluateBlank(m, keys);
      }
    }
  }

  /** A manifest that was itself parsed comes back exactly when its urls and hashes are plain
      and its sizes and numeric extras are plainly printed. */
  lemma ParsedRoundTrip(raw: string, text: string)
    requires Parse(raw).Ok? && Prints(Parse(raw).value, text)
    ensures Parse(text) == Parse(raw)
       <==> PlainFiles(Parse(raw).value.files) && PlainNumbers(Parse(raw).value)
  {
    ParsedWasRead(raw);
    RoundTrip(Parse(raw).value, text);
  }

  // Texts whose manifest does not come back, however plain the rest.

  /** The lines of a file whose size is written out in digits. */
  function DigitLines(url: string, sha: string, size: nat): seq<string> {
    [URL_FIELD + " " + url, SHA_FIELD + " " + sha, SIZE_FIELD + " " + PrintNat(size)]
  }

  function OneFile(version: string, date: string, url: string, sha: string, size: nat): Manifest {
    Manifest(version, date, [File(url, sha, Decimal(false, size, ""))], map[])
  }

  function DigitText(m: Manifest, url: string, sha: string, size: nat): seq<string> {
    HeadLines(m) + DigitLines(url, sha, size) + [] + TailLines(m)
  }

  lemma PlainField(s: string)
    requires Plain(s)
    ensures Trim(s) != "" && Normal(s) == s
  {
    NormalPlain(s);
  }

  lemma ReadDigitLines(url: string, sha: string, size: nat)
    requires Plain(url) && Plain(sha) && SingleLine(url) && SingleLine(sha)
    ensures ReadLines(DigitLines(url, sha, size)) == EntryLines(Entry(Some(url), Some(sha), size))
  {
    var lines := DigitLines(url, sha, size);
    assert ReadLine(lines[0]) == UrlLine(url) by { PlainField(url); ReadUrl(url); }
    assert ReadLine(lines[1]) == ShaLine(sha) by { PlainField(sha); ReadSha(sha); }
    assert ReadLine(lines[2]) == SizeLine(size) by { ReadSize(size); }
    ReadThree(lines[0], lines[1], lines[2]);
  }

  lemma ReadDigitText(m: Manifest, url: string, sha: string, size: nat)
    requires Plain(url) && Plain(sha) && SingleLine(url) && SingleLine(sha)
    requires SingleLine(m.version) && SingleLine(m.releaseDate)
    ensures ReadLines(DigitText(m, url, sha, size))
         == AllEntries(m.version, m.releaseDate, [Entry(Some(url), Some(sha), size)], [], map[])
    ensures OneLines(DigitText(m, url, sha, size))
  {
    var e := Entry(Some(url), Some(sha), size);
    var file := DigitLines(url, sha, size);
    ReadFour(HeadLines(m), file, [], TailLines(m));
    assert ReadLines(file) == EntryLines(e) by { ReadDigitLines(url, sha, size); }
    assert ReadLines(HeadLines(m)) == HeadEntries(m.version) by { ReadHead(m); }
    assert ReadLines(TailLines(m)) == TailEntries(m.releaseDate) by { ReadTail(m); }
    BodyOfOne(e);
    DigitsText(PrintNat(size));
    FieldsOneLine(url, sha, PrintNat(size));
    EndsOneLine(m);
    OneLinesConcat(HeadLines(m), file);
    OneLinesConcat(HeadLines(m) + file + [], TailLines(m));
  }

  lemma BodyOfOne(e: Entry)
    requires Filled(e)
    ensures Body([e], [], map[]) == EntryLines(e) + [] && ToFiles([e]) == [ToFile(e)]
  {
    assert AllEntryLines([e]) == EntryLines(e) + AllEntryLines([]);
  }

  lemma ParseDigitText(version: string, date: string, url: string, sha: string, size: nat)
    requires Plain(url) && Plain(sha) && SingleLine(url) && SingleLine(sha)
    requires version != "" && SingleLine(version) && date != "" && SingleLine(date)
    ensures var m := OneFile(version, date, url, sha, size);
            Parse(JoinLines(DigitText(m, url, sha, size))) == Ok(m)
  {
    var m := OneFile(version, date, url, sha, size);
    var e := Entry(Some(url), Some(sha), size);
    var lines := DigitText(m, url, sha, size);
    ReadDigitText(m, url, sha, size);
    ParseJoined(lines);
    BodyOfOne(e);
    var none: map<string, Scalar> := map[];
    ApplyAll(version, date, [e], [], none);
    assert Restrict(none, []) == none;
    FinishDone(State([ToFile(e)], none, Some(version), Some(date), false, None), |lines|);
  }

  /** A size of 10^21 or more is read, but printed with an exponent and then refused. */
  lemma LargeSizeIsLost(version: string, date: string, url: string, sha: string, size: nat, text: string)
    requires Plain(url) && Plain(sha) && SingleLine(url) && SingleLine(sha)
    requires version != "" && SingleLine(version) && date != "" && SingleLine(date)
    requires size >= LARGE && Prints(OneFile(version, date, url, sha, size), text)
    ensures var m := OneFile(version, date, url, sha, size);
            Parse(JoinLines(DigitText(m, url, sha, size))) == Ok(m) != Parse(text)
  {
    var m := OneFile(version, date, url, sha, size);
    ParseDigitText(version, date, url, sha, size);
    RoundTrip(m, text);
    assert m.files[0] in m.files && !PrintsPlainly(m.files[0].size);
  }

  // ---------------------------------------------------------------- errors

  /** What line `n` must be for an error to name it. */
  predicate Blames(e: Error, line: Line, n: nat) {
    match e
    case IncompleteFile(m) => m == n && (line.UrlLine? || line.EntryLine? || line.OtherLine?)
    case ShaWithoutFile(m) => m == n && line.ShaLine?
    case SizeWithoutFile(m) => m == n && line.SizeLine?
    case Unsupported(m) => m == n && line.OtherLine?
    case VersionNotString(m) => m == n && line.EntryLine? && line.key == "version" && !line.value.Str?
    case ReleaseDateNotString(m) => m == n && line.EntryLine? && line.key == "releaseDate" && !line.value.Str?
    case _ => false
  }

  lemma ApplyBlames(st: State, line: Line, n: nat)
    requires ApplyLine(st, line, n).Err?
    ensures Blames(ApplyLine(st, line, n).error, line, n)
  {
  }

  lemma {:induction false} LinesBlame(st: State, lines: seq<Line>, n: nat) returns (i: nat)
    requires ApplyLines(st, lines, n).Err?
    ensures i < |lines| && Blames(ApplyLines(st, lines, n).error, lines[i], n + i)
    decreases |lines|
  {
    var first := ApplyLine(st, lines[0], n);
    if first.Err? {
      ApplyBlames(st, lines[0], n);
      i := 0;
    } else {
      i := LinesBlame(first.value, lines[1..], n + 1);
      i := i + 1;
    }
  }

  lemma {:induction false} ReadLinesAt(lines: seq<string>, i: nat)
    ensures |ReadLines(lines)| == |lines|
    ensures i < |lines| ==> ReadLines(lines)[i] == ReadLine(lines[i])
  {
    if lines != [] {
      var rest := lines[1..];
      ReadLinesAt(rest, if i == 0 then 0 else i - 1);
      assert ReadLines(lines) == [ReadLine(lines[0])] + ReadLines(rest);
      assert 0 < i < |lines| ==> lines[i] == rest[i - 1] && ReadLines(lines)[i] == ReadLines(rest)[i - 1];
    }
  }

  /** An error with a line number names a line that is the kind of line it complains of, or
      the end of a text whose last file is incomplete. */
  lemma ErrorsNameTheirLine(raw: string)
    requires Parse(raw).Err?
    ensures var e := Parse(raw).error;
            var lines := SplitLines(raw);
            || e == MissingVersion || e == MissingReleaseDate || e == MissingFiles
            || e == IncompleteFile(|lines|)
            || exists i :: 0 <= i < |lines| && Blames(e, ReadLine(lines[i]), i + 1)
  {
    var lines := SplitLines(raw);
    if ApplyLines(START, ReadLines(lines), 1).Err? {
      var i := LinesBlame(START, ReadLines(lines), 1);
      ReadLinesAt(lines, i);
    }
  }
}
