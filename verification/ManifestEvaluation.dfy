/** What parsing makes of a printed update manifest, line by line
    (scripts/lib/update-manifest.ts). */
module ManifestEvaluation {
  import opened Outcomes
  import opened Text
  import opened UpdateManifest
  import opened ManifestText

  /** What every parsed manifest satisfies. */
  ghost predicate WasRead(m: Manifest) {
    && m.version != "" && SingleLine(m.version)
    && m.releaseDate != "" && SingleLine(m.releaseDate)
    && m.files != []
    && (forall f | f in m.files :: FileRead(f))
    && (forall k | k in m.extras :: ExtraRead(k, m.extras[k]))
  }

  predicate FileRead(f: File) {
    SingleLine(f.url) && SingleLine(f.sha512) && IsWhole(f.size)
  }

  predicate ExtraRead(key: string, v: Scalar) {
    IsKey(key) && !Reserved(key) && ScalarRead(v)
  }

  predicate ScalarRead(v: Scalar) {
    match v
    case Str(text) => SingleLine(text)
    case Num(n) => Canonical(n)
    case Bool(_) => true
  }

  /** Sizes and numeric extras are printed in plain decimal notation. */
  ghost predicate PlainNumbers(m: Manifest) {
    && (forall f | f in m.files :: PrintsPlainly(f.size))
    && (forall k | k in m.extras :: PlainScalar(m.extras[k]))
  }

  predicate PlainScalar(v: Scalar) {
    v.Num? ==> PrintsPlainly(v.number)
  }

  ghost predicate InRange(m: Manifest) {
    WasRead(m) && PlainNumbers(m)
  }

  predicate FileInRange(f: File) {
    FileRead(f) && PrintsPlainly(f.size)
  }

  predicate ExtraInRange(key: string, v: Scalar) {
    ExtraRead(key, v) && PlainScalar(v)
  }

  predicate ScalarInRange(v: Scalar) {
    ScalarRead(v) && PlainScalar(v)
  }

  // ---------------------------------------------------------------- lines

  /** Splitting undoes joining. */
  lemma {:induction false} SplitJoin(lines: seq<string>)
    requires lines != [] && forall l | l in lines :: SingleLine(l)
    ensures SplitLines(JoinLines(lines)) == lines
  {
    var raw := JoinLines(lines);
    assert SingleLine(lines[0]);
    if |lines| == 1 {
      assert IndexOf(raw, '\n') == |raw|;
    } else {
      IndexAfter(lines[0], '\n', JoinLines(lines[1..]));
      assert raw[..|lines[0]|] == lines[0];
      assert raw[|lines[0]| + 1..] == JoinLines(lines[1..]);
      SplitJoin(lines[1..]);
    }
  }

  lemma {:induction false} ApplyConcat(st: State, a: seq<Line>, b: seq<Line>, n: nat)
    ensures ApplyLines(st, a + b, n) ==
            match ApplyLines(st, a, n)
            case Err(e) => Err(e)
            case Ok(s) => ApplyLines(s, b, n + |a|)
    decreases |a|
  {
    if a == [] {
      assert a + b == b;
    } else {
      assert (a + b)[1..] == a[1..] + b;
      var r := ApplyLine(st, a[0], n);
      if r.Ok? {
        ApplyConcat(r.value, a[1..], b, n + 1);
      }
    }
  }

  lemma {:induction false} TrimEndConcat(a: string, b: string)
    ensures TrimEnd(a + b) == if TrimEnd(b) != "" then a + TrimEnd(b) else TrimEnd(a)
  {
    if b == "" {
      assert a + b == a;
    } else {
      assert (a + b)[..|a + b| - 1] == a + b[..|b| - 1];
      TrimEndConcat(a, b[..|b| - 1]);
    }
  }

  lemma TrimStartSpace(s: string)
    ensures TrimStart(" " + s) == TrimStart(s)
  {
    assert (" " + s)[1..] == s;
  }

  /** What trimming the end leaves of a value after its prefix and one space. */
  lemma TrimmedLine(prefix: string, text: string)
    requires prefix != "" && !IsSpace(prefix[|prefix| - 1])
    ensures TrimEnd(prefix + " " + text) == if TrimEnd(text) == "" then prefix else prefix + " " + TrimEnd(text)
  {
    TrimEndConcat(prefix + " ", text);
    TrimEndConcat(prefix, " ");
    assert " "[..0] == "";
  }

  lemma TrimTwice(s: string)
    ensures Trim(Trim(s)) == Trim(s)
  {
    var e := TrimEnd(s);
    var t := TrimStart(e);
    assert t != "" ==> t[|t| - 1] == e[|e| - 1];
    assert TrimEnd(t) == t;
  }

  lemma TrimOneLine(s: string)
    requires SingleLine(s)
    ensures SingleLine(Trim(s))
  {
    var e := TrimEnd(s);
    var t := TrimStart(e);
    assert t == s[|e| - |t|..|e|];
  }

  lemma AfterPrefix(prefix: string, t: string)
    ensures prefix <= prefix + " " + t
    ensures TrimStart((prefix + " " + t)[|prefix|..]) == TrimStart(t)
  {
    assert (prefix + " " + t)[|prefix|..] == " " + t;
    TrimStartSpace(t);
  }

  lemma GroupOf(prefix: string, text: string)
    requires prefix != "" && !IsSpace(prefix[|prefix| - 1])
    ensures var line := TrimEnd(prefix + " " + text);
            && prefix <= line
            && TrimStart(line[|prefix|..]) == Trim(text)
            && (Trim(text) == "" ==> line == prefix)
  {
    TrimmedLine(prefix, text);
    if TrimEnd(text) == "" {
      assert prefix[|prefix|..] == "";
    } else {
      AfterPrefix(prefix, TrimEnd(text));
      TrimStartText(TrimEnd(text));
    }
  }

  lemma FieldIs(line: string, prefix: string, group: string)
    requires prefix <= line && TrimStart(line[|prefix|..]) == group && SingleLine(group)
    ensures Field(line, prefix) == if group == "" then None else Some(group)
  {
  }

  lemma FieldOf(prefix: string, text: string)
    requires prefix != "" && !IsSpace(prefix[|prefix| - 1]) && SingleLine(text)
    ensures var line := TrimEnd(prefix + " " + text);
            && prefix <= line
            && (Trim(text) == "" ==> line == prefix)
            && Field(line, prefix) == if Trim(text) == "" then None else Some(Trim(text))
  {
    assert SingleLine(Trim(text)) by { TrimOneLine(text); }
    GroupOf(prefix, text);
    FieldIs(TrimEnd(prefix + " " + text), prefix, Trim(text));
  }

  lemma TrimStartText(t: string)
    requires t != "" ==> !IsSpace(t[|t| - 1])
    ensures t != "" ==> TrimStart(t) != ""
  {
    if t != "" && IsSpace(t[0]) {
      TrimStartText(t[1..]);
    }
  }

  // ---------------------------------------------------------------- one line of each kind

  lemma IndentedIsNoField(line: string)
    requires line != "" && line[0] == ' '
    ensures TopField(line).None?
  {
    var i := IndexOf(line, ':');
    assert i > 0 ==> line[..i][0] == ' ';
  }

  /** A line that starts with one field's prefix does not start with another's. */
  lemma OtherPrefix(line: string, a: string, b: string, k: nat)
    requires a <= line && k < |a| && k < |b| && a[k] != b[k]
    ensures !(b <= line)
  {
    assert line[k] == a[k];
  }

  lemma Prefixes()
    ensures URL_FIELD[2] == '-' && SHA_FIELD[2] == ' ' && SIZE_FIELD[2] == ' '
    ensures SHA_FIELD[5] == 'h' && SIZE_FIELD[5] == 'i'
    ensures URL_FIELD[0] == SHA_FIELD[0] == SIZE_FIELD[0] == ' '
    ensures URL_FIELD[|URL_FIELD| - 1] == SHA_FIELD[|SHA_FIELD| - 1] == SIZE_FIELD[|SIZE_FIELD| - 1] == ':'
  {
  }

  lemma ReadUrl(url: string)
    requires SingleLine(url)
    ensures ReadLine(URL_FIELD + " " + url) == if Trim(url) == "" then OtherLine else UrlLine(Normal(url))
  {
    var line := TrimEnd(URL_FIELD + " " + url);
    Prefixes();
    FieldOf(URL_FIELD, url);
    if Trim(url) == "" {
      NoField(line, URL_FIELD);
    } else {
      assert Trim(Trim(url)) == Trim(url) by { TrimTwice(url); }
    }
  }

  /** A line that is one of the prefixes and nothing else says nothing. */
  lemma NoField(line: string, prefix: string)
    requires line == prefix && (prefix == URL_FIELD || prefix == SHA_FIELD)
    ensures ReadTrimmed(line) == OtherLine
  {
    Prefixes();
    assert line[|line|..] == "";
    assert Field(line, prefix) == None;
    assert line != "files:";
    IndentedIsNoField(line);
    if prefix == URL_FIELD {
      OtherPrefix(line, URL_FIELD, SHA_FIELD, 2);
      OtherPrefix(line, URL_FIELD, SIZE_FIELD, 2);
    } else {
      OtherPrefix(line, SHA_FIELD, URL_FIELD, 2);
      OtherPrefix(line, SHA_FIELD, SIZE_FIELD, 5);
    }
    Unread(line);
  }

  lemma Unread(line: string)
    requires line != "" && line != "files:"
    requires Field(line, URL_FIELD) == Field(line, SHA_FIELD) == None
    requires SizeField(line) == None && TopField(line) == None
    ensures ReadTrimmed(line) == OtherLine
  {
  }

  lemma ReadSha(sha: string)
    requires SingleLine(sha)
    ensures ReadLine(SHA_FIELD + " " + sha) == if Trim(sha) == "" then OtherLine else ShaLine(Normal(sha))
  {
    var line := TrimEnd(SHA_FIELD + " " + sha);
    Prefixes();
    FieldOf(SHA_FIELD, sha);
    if Trim(sha) == "" {
      NoField(line, SHA_FIELD);
    } else {
      assert Trim(Trim(sha)) == Trim(sha) by { TrimTwice(sha); }
      OtherPrefix(line, SHA_FIELD, URL_FIELD, 2);
      ShaField(line);
    }
  }

  lemma ShaField(line: string)
    requires line != "" && Field(line, SHA_FIELD).Some? && !(URL_FIELD <= line)
    ensures ReadTrimmed(line) == ShaLine(Normal(Field(line, SHA_FIELD).value))
  {
  }

  lemma ReadSize(size: nat)
    ensures ReadLine(SIZE_FIELD + " " + PrintNat(size)) == SizeLine(size)
  {
    var digits := PrintNat(size);
    var line := TrimEnd(SIZE_FIELD + " " + digits);
    Prefixes();
    DigitsText(digits);
    FieldOf(SIZE_FIELD, digits);
    OtherPrefix(line, SIZE_FIELD, URL_FIELD, 2);
    OtherPrefix(line, SIZE_FIELD, SHA_FIELD, 5);
    ParsePrintNat(size);
  }

  lemma DigitsText(s: string)
    requires s != "" && AllDigits(s)
    ensures SingleLine(s) && Trim(s) == s
  {
    assert forall c :: IsDigit(c) ==> !IsTerminator(c) && !IsSpace(c);
  }

  ghost predicate TopValue(text: string) {
    text != "" && !IsSpace(text[0]) && !IsSpace(text[|text| - 1]) && SingleLine(text)
  }

  lemma EntryField(key: string, text: string)
    requires IsKey(key) && TopValue(text)
    ensures TopField(key + ": " + text) == Some((key, text))
  {
    var line := key + ": " + text;
    assert line == key + [':'] + (" " + text);
    NoColon(key);
    IndexAfter(key, ':', " " + text);
    assert line[..|key|] == key;
    assert line[|key| + 1..] == " " + text;
    TrimStartSpace(text);
    assert TrimStart(text) == text;
  }

  lemma NoColon(key: string)
    requires IsKey(key)
    ensures ':' !in key
  {
  }

  lemma ReadEntry(key: string, text: string)
    requires IsKey(key) && TopValue(text)
    ensures ReadLine(key + ": " + text) == EntryLine(key, ParseScalarValue(text))
  {
    var line := key + ": " + text;
    EntryField(key, text);
    assert line[0] == key[0] && line[|line| - 1] == text[|text| - 1];
    assert TrimEnd(line) == line;
    NotFiles(key, text);
    ReadUnindented(line);
  }

  lemma ReadUnindented(line: string)
    requires line != "" && line[0] != ' ' && line != "files:"
    ensures ReadTrimmed(line) == ReadTop(line)
  {
    Prefixes();
    assert !(URL_FIELD <= line) && !(SHA_FIELD <= line) && !(SIZE_FIELD <= line);
  }

  lemma NotFiles(key: string, text: string)
    ensures key + ": " + text != "files:"
  {
    assert (key + ": " + text)[|key| + 1] == ' ';
    assert ' ' !in "files:";
  }

  lemma ReadFilesLine()
    ensures ReadLine("files:") == FilesLine
  {
    assert "files:"[0] == 'f' && "files:"[5] == ':';
  }

  // ---------------------------------------------------------------- what a state stands for

  /** No file in progress, or a complete one directly under `files:`. */
  predicate Tidy(st: State) {
    st.current.Some? ==> st.inFiles && Complete(st.current.value).Some?
  }

  function Settled(st: State): State
    requires Tidy(st)
  {
    State(if st.current.None? then st.files else st.files + [Complete(st.current.value).value],
          st.extras, st.version, st.releaseDate, false, None)
  }

  // ---------------------------------------------------------------- all the files

  /** The three lines of one file as they are read; a blank field is no field. */
  datatype Entry = Entry(url: Option<string>, sha512: Option<string>, size: nat)

  function EntryOf(f: File): Entry {
    Entry(if Trim(f.url) == "" then None else Some(Normal(f.url)),
          if Trim(f.sha512) == "" then None else Some(Normal(f.sha512)),
          if f.size.Decimal? then f.size.whole else 0)
  }

  predicate Filled(e: Entry) {
    e.url.Some? && e.sha512.Some?
  }

  function ToFile(e: Entry): File
    requires Filled(e)
  {
    File(e.url.value, e.sha512.value, Decimal(false, e.size, ""))
  }

  function EntryLines(e: Entry): seq<Line> {
    [if e.url.None? then OtherLine else UrlLine(e.url.value),
     if e.sha512.None? then OtherLine else ShaLine(e.sha512.value),
     SizeLine(e.size)]
  }

  function AllEntryLines(entries: seq<Entry>): seq<Line> {
    if entries == [] then [] else EntryLines(entries[0]) + AllEntryLines(entries[1..])
  }

  function ToFiles(entries: seq<Entry>): (r: seq<File>)
    requires forall e | e in entries :: Filled(e)
    ensures |r| == |entries| && forall i | 0 <= i < |r| :: r[i] == ToFile(entries[i])
  {
    if entries == [] then [] else [ToFile(entries[0])] + ToFiles(entries[1..])
  }

  lemma ApplyCons(st: State, line: Line, rest: seq<Line>, n: nat)
    ensures ApplyLines(st, [line] + rest, n) ==
            match ApplyLine(st, line, n)
            case Err(e) => Err(e)
            case Ok(s) => ApplyLines(s, rest, n + 1)
  {
    assert ([line] + rest)[1..] == rest;
  }

  function AfterFile(st: State, e: Entry): (s: State)
    requires Tidy(st) && Filled(e)
    ensures Tidy(s) && s.inFiles
    ensures Settled(s) == Settled(st).(files := Settled(st).files + [ToFile(e)])
  {
    Settled(st).(inFiles := true, current := Some(Partial(e.url.value, e.sha512, Some(e.size))))
  }

  lemma ApplyFile(st: State, e: Entry, rest: seq<Line>, n: nat)
    requires Tidy(st) && Filled(e)
    ensures ApplyLines(st, EntryLines(e) + rest, n) == ApplyLines(AfterFile(st, e), rest, n + 3)
  {
    var s1 := Settled(st).(inFiles := true, current := Some(Partial(e.url.value, None, None)));
    var s2 := s1.(current := Some(Partial(e.url.value, e.sha512, None)));
    var l := EntryLines(e);
    ApplyCons(st, l[0], [l[1], l[2]] + rest, n);
    ApplyCons(s1, l[1], [l[2]] + rest, n + 1);
    ApplyCons(s2, l[2], rest, n + 2);
    assert EntryLines(e) + rest == [l[0]] + ([l[1], l[2]] + rest);
    assert [l[1], l[2]] + rest == [l[1]] + ([l[2]] + rest);
  }

  lemma ApplyBlankFile(st: State, e: Entry, rest: seq<Line>, n: nat)
    requires Tidy(st) && !Filled(e)
    ensures ApplyLines(st, EntryLines(e) + rest, n).Err?
  {
    var l := EntryLines(e);
    ApplyCons(st, l[0], [l[1], l[2]] + rest, n);
    assert EntryLines(e) + rest == [l[0]] + ([l[1], l[2]] + rest);
    if e.url.Some? {
      var s1 := Settled(st).(inFiles := true, current := Some(Partial(e.url.value, None, None)));
      assert [l[1], l[2]] + rest == [l[1]] + ([l[2]] + rest);
      ApplyCons(s1, l[1], [l[2]] + rest, n + 1);
    }
  }

  lemma ApplyFirstFile(st: State, entries: seq<Entry>, n: nat)
    requires Tidy(st) && entries != [] && Filled(entries[0])
    ensures ApplyLines(st, AllEntryLines(entries), n)
         == ApplyLines(AfterFile(st, entries[0]), AllEntryLines(entries[1..]), n + 3)
  {
    ApplyFile(st, entries[0], AllEntryLines(entries[1..]), n);
  }

  /** `s` stands for what `st` stands for and the files `files` after its own. */
  ghost predicate Adds(st: State, files: seq<File>, s: State) {
    && Tidy(st) && Tidy(s)
    && Settled(s) == Settled(st).(files := Settled(st).files + files)
  }

  lemma AddsBoth(a: State, x: seq<File>, b: State, y: seq<File>, c: State)
    requires Adds(a, x, b) && Adds(b, y, c)
    ensures Adds(a, x + y, c)
  {
    assert Settled(a).files + x + y == Settled(a).files + (x + y);
  }

  lemma AddsNone(a: State)
    requires Tidy(a)
    ensures Adds(a, [], a)
  {
    assert Settled(a).files + [] == Settled(a).files;
  }

  /** Complete files are kept, in order. */
  lemma {:induction false} FilesFold(st: State, entries: seq<Entry>, n: nat, r: Parsed<State>)
    requires Tidy(st) && st.inFiles && forall e | e in entries :: Filled(e)
    requires r == ApplyLines(st, AllEntryLines(entries), n)
    ensures r.Ok? && Adds(st, ToFiles(entries), r.value)
    decreases |entries|
  {
    if entries == [] {
      AddsNone(st);
    } else {
      var s := AfterFile(st, entries[0]);
      assert Adds(st, [ToFile(entries[0])], s);
      ApplyFirstFile(st, entries, n);
      FilesFold(s, entries[1..], n + 3, r);
      AddsBoth(st, [ToFile(entries[0])], s, ToFiles(entries[1..]), r.value);
    }
  }

  /** A blank url or hash is an error. */
  lemma {:induction false} BlankFails(st: State, entries: seq<Entry>, n: nat)
    requires Tidy(st) && exists e :: e in entries && !Filled(e)
    ensures ApplyLines(st, AllEntryLines(entries), n).Err?
    decreases |entries|
  {
    var e := entries[0];
    var rest := entries[1..];
    if Filled(e) {
      ApplyFile(st, e, AllEntryLines(rest), n);
      BlankFails(AfterFile(st, e), rest, n + 3);
    } else {
      ApplyBlankFile(st, e, AllEntryLines(rest), n);
    }
  }

  lemma ReadTwo(a: string, b: string)
    ensures ReadLines([a, b]) == [ReadLine(a), ReadLine(b)]
  {
    assert [a, b][1..] == [b];
    assert ReadLines([b]) == [ReadLine(b)] + ReadLines([]);
  }

  lemma ReadThree(a: string, b: string, c: string)
    ensures ReadLines([a, b, c]) == [ReadLine(a), ReadLine(b), ReadLine(c)]
  {
    assert [a, b, c][1..] == [b, c];
    ReadTwo(b, c);
  }

  lemma ReadWhole(n: Number)
    requires IsWhole(n) && PrintsPlainly(n)
    ensures ReadLine(SIZE_FIELD + " " + PrintNumber(n)) == SizeLine(n.whole)
  {
    PrintWhole(n);
    ReadSize(n.whole);
  }

  lemma ReadFile(f: File)
    requires FileInRange(f)
    ensures ReadLines(FileLines(f)) == EntryLines(EntryOf(f))
  {
    var e := EntryLines(EntryOf(f));
    var lines := FileLines(f);
    assert ReadLine(lines[0]) == e[0] by { ReadUrl(f.url); }
    assert ReadLine(lines[1]) == e[1] by { ReadSha(f.sha512); }
    assert ReadLine(lines[2]) == e[2] by { ReadWhole(f.size); }
    ReadThree(lines[0], lines[1], lines[2]);
  }

  lemma PrintWhole(n: Number)
    requires IsWhole(n) && PrintsPlainly(n)
    ensures PrintNumber(n) == PrintNat(n.whole)
  {
    assert PrintNat(n.whole) + "" == PrintNat(n.whole);
  }

  lemma {:induction false} ReadLinesConcat(a: seq<string>, b: seq<string>)
    ensures ReadLines(a + b) == ReadLines(a) + ReadLines(b)
  {
    if a == [] {
      assert a + b == b;
    } else {
      assert (a + b)[1..] == a[1..] + b;
      ReadLinesConcat(a[1..], b);
    }
  }

  function EntriesOf(files: seq<File>): seq<Entry> {
    if files == [] then [] else [EntryOf(files[0])] + EntriesOf(files[1..])
  }

  lemma {:induction false} ReadFiles(files: seq<File>)
    requires forall f | f in files :: FileInRange(f)
    ensures ReadLines(FilesLines(files)) == AllEntryLines(EntriesOf(files))
  {
    if files != [] {
      ReadFiles(files[1..]);
      ReadLinesConcat(FileLines(files[0]), FilesLines(files[1..]));
      assert ReadLines(FileLines(files[0])) == EntryLines(EntryOf(files[0])) by { ReadFile(files[0]); }
    }
  }

  // ---------------------------------------------------------------- all the extras

  lemma ScalarText(v: Scalar)
    requires ScalarRead(v)
    ensures TopValue(SerializeScalarValue(v))
  {
    match v
    case Str(text) => QuotedText(text);
    case Num(n) => NumberValue(n);
    case Bool(_) =>
  }

  lemma NumberValue(n: Number)
    requires n.Decimal? && AllDigits(n.fraction) && (PrintsPlainly(n) ==> Canonical(n))
    ensures TopValue(PrintNumber(n))
  {
    if PrintsPlainly(n) {
      NumberText(n);
      assert forall c :: IsDigit(c) || c == '-' ==> !IsSpace(c);
    } else {
      PrintsOther(n);
      OtherFormText(PrintNumber(n));
    }
  }

  lemma QuotedText(text: string)
    requires SingleLine(text)
    ensures TopValue(Quote(text))
  {
    DoubleSingleLine(text);
    SingleLineConcat("'", Double(text));
    SingleLineConcat("'" + Double(text), "'");
  }

  lemma ReadExtra(key: string, v: Scalar)
    requires IsKey(key) && ScalarInRange(v)
    ensures ReadLine(ExtraLine(key, v)) == EntryLine(key, v)
  {
    ScalarText(v);
    ScalarReadsBack(v);
    ReadEntry(key, SerializeScalarValue(v));
  }

  lemma ApplyEntry(st: State, key: string, v: Scalar, n: nat)
    requires Tidy(st) && !Reserved(key)
    ensures ApplyLine(st, EntryLine(key, v), n) == Ok(Settled(st).(extras := st.extras[key := v]))
  {
  }

  function ExtraEntries(keys: seq<string>, extras: map<string, Scalar>): seq<Line>
    requires forall k | k in keys :: k in extras
  {
    if keys == [] then [] else [EntryLine(keys[0], extras[keys[0]])] + ExtraEntries(keys[1..], extras)
  }

  lemma {:induction false} ReadExtras(keys: seq<string>, extras: map<string, Scalar>)
    requires forall k | k in keys :: k in extras && ExtraInRange(k, extras[k])
    ensures ReadLines(ExtraLines(keys, extras)) == ExtraEntries(keys, extras)
  {
    if keys != [] {
      var k := keys[0];
      assert ExtraInRange(k, extras[k]);
      ReadExtra(k, extras[k]);
      ReadExtras(keys[1..], extras);
      ReadLinesConcat([ExtraLine(k, extras[k])], ExtraLines(keys[1..], extras));
    }
  }

  lemma ApplyFirstExtra(st: State, keys: seq<string>, extras: map<string, Scalar>, n: nat)
    requires Tidy(st) && keys != [] && forall k | k in keys :: k in extras && !Reserved(k)
    ensures ApplyLines(st, ExtraEntries(keys, extras), n)
         == ApplyLines(Settled(st).(extras := st.extras[keys[0] := extras[keys[0]]]),
                       ExtraEntries(keys[1..], extras), n + 1)
  {
    ApplyEntry(st, keys[0], extras[keys[0]], n);
    ApplyCons(st, EntryLine(keys[0], extras[keys[0]]), ExtraEntries(keys[1..], extras), n);
  }

  function Restrict(extras: map<string, Scalar>, keys: seq<string>): map<string, Scalar>
    requires forall k | k in keys :: k in extras
  {
    map k | k in keys :: extras[k]
  }

  /** `s` stands for what `st` stands for with the entries of `extras` set. */
  ghost predicate Sets(st: State, extras: map<string, Scalar>, s: State) {
    && Tidy(st) && Tidy(s)
    && Settled(s) == Settled(st).(extras := st.extras + extras)
  }

  lemma SetsBoth(a: State, x: map<string, Scalar>, b: State, y: map<string, Scalar>, c: State)
    requires Sets(a, x, b) && Sets(b, y, c)
    ensures Sets(a, x + y, c)
  {
    assert a.extras + x + y == a.extras + (x + y);
  }

  lemma SetsNone(a: State)
    requires Tidy(a)
    ensures Sets(a, map[], a)
  {
    assert a.extras + map[] == a.extras;
  }

  lemma {:induction false} ExtrasFold(st: State, keys: seq<string>, extras: map<string, Scalar>, n: nat,
                                      r: Parsed<State>)
    requires Tidy(st) && forall k | k in keys :: k in extras && !Reserved(k)
    requires r == ApplyLines(st, ExtraEntries(keys, extras), n)
    ensures r.Ok? && Sets(st, Restrict(extras, keys), r.value)
    decreases |keys|
  {
    if keys == [] {
      SetsNone(st);
    } else {
      var k := keys[0];
      var s := Settled(st).(extras := st.extras[k := extras[k]]);
      ApplyFirstExtra(st, keys, extras, n);
      ExtrasFold(s, keys[1..], extras, n + 1, r);
      assert Sets(st, map[k := extras[k]], s);
      SetsBoth(st, map[k := extras[k]], s, Restrict(extras, keys[1..]), r.value);
      RestrictCons(extras, keys);
    }
  }

  lemma RestrictCons(extras: map<string, Scalar>, keys: seq<string>)
    requires keys != [] && forall k | k in keys :: k in extras
    ensures map[keys[0] := extras[keys[0]]] + Restrict(extras, keys[1..]) == Restrict(extras, keys)
  {
  }

  // ---------------------------------------------------------------- a whole manifest

  function Body(entries: seq<Entry>, keys: seq<string>, extras: map<string, Scalar>): seq<Line>
    requires forall k | k in keys :: k in extras
  {
    AllEntryLines(entries) + ExtraEntries(keys, extras)
  }

  function HeadEntries(version: string): seq<Line> {
    [EntryLine("version", Str(version)), FilesLine]
  }

  function TailEntries(releaseDate: string): seq<Line> {
    [EntryLine("releaseDate", Str(releaseDate)), EmptyLine]
  }

  const Headed := (version: string) => State([], map[], Some(version), None, true, None)

  lemma ApplyHead(version: string, rest: seq<Line>)
    ensures ApplyLines(START, HeadEntries(version) + rest, 1) == ApplyLines(Headed(version), rest, 3)
  {
    var s := START.(version := Some(version));
    assert HeadEntries(version) + rest == [EntryLine("version", Str(version))] + ([FilesLine] + rest);
    ApplyCons(START, EntryLine("version", Str(version)), [FilesLine] + rest, 1);
    ApplyCons(s, FilesLine, rest, 2);
  }

  lemma ApplyTail(st: State, releaseDate: string, n: nat)
    requires Tidy(st)
    ensures ApplyLines(st, TailEntries(releaseDate), n) == Ok(Settled(st).(releaseDate := Some(releaseDate)))
  {
    var s := Settled(st).(releaseDate := Some(releaseDate));
    assert TailEntries(releaseDate) == [EntryLine("releaseDate", Str(releaseDate))] + [EmptyLine];
    ApplyCons(st, EntryLine("releaseDate", Str(releaseDate)), [EmptyLine], n);
    ApplyCons(s, EmptyLine, [], n + 1);
    assert [EmptyLine] + [] == [EmptyLine];
  }

  lemma ApplyBody(st: State, entries: seq<Entry>, keys: seq<string>, extras: map<string, Scalar>, n: nat,
                  r: Parsed<State>)
    requires Tidy(st) && st.inFiles && forall e | e in entries :: Filled(e)
    requires forall k | k in keys :: k in extras && !Reserved(k)
    requires r == ApplyLines(st, Body(entries, keys, extras), n)
    ensures r.Ok? && Tidy(r.value)
    ensures Settled(r.value) == Settled(st).(files := Settled(st).files + ToFiles(entries),
                                             extras := st.extras + Restrict(extras, keys))
  {
    var first := ApplyLines(st, AllEntryLines(entries), n);
    ApplyConcat(st, AllEntryLines(entries), ExtraEntries(keys, extras), n);
    FilesFold(st, entries, n, first);
    ExtrasFold(first.value, keys, extras, n + |AllEntryLines(entries)|, r);
  }

  function AllEntries(version: string, releaseDate: string, entries: seq<Entry>,
                      keys: seq<string>, extras: map<string, Scalar>): seq<Line>
    requires forall k | k in keys :: k in extras
  {
    HeadEntries(version) + (Body(entries, keys, extras) + TailEntries(releaseDate))
  }

  lemma ApplyAll(version: string, releaseDate: string, entries: seq<Entry>,
                 keys: seq<string>, extras: map<string, Scalar>)
    requires forall k | k in keys :: k in extras && !Reserved(k)
    requires forall e | e in entries :: Filled(e)
    ensures ApplyLines(START, AllEntries(version, releaseDate, entries, keys, extras), 1)
         == Ok(State(ToFiles(entries), Restrict(extras, keys), Some(version), Some(releaseDate), false, None))
  {
    var st := Headed(version);
    var body := Body(entries, keys, extras);
    ApplyHead(version, body + TailEntries(releaseDate));
    ApplyConcat(st, body, TailEntries(releaseDate), 3);
    var r := ApplyLines(st, body, 3);
    ApplyBody(st, entries, keys, extras, 3, r);
    ApplyTail(r.value, releaseDate, 3 + |body|);
    assert map[] + Restrict(extras, keys) == Restrict(extras, keys);
    assert [] + ToFiles(entries) == ToFiles(entries);
  }

  lemma ApplyAllFails(version: string, releaseDate: string, entries: seq<Entry>,
                      keys: seq<string>, extras: map<string, Scalar>)
    requires forall k | k in keys :: k in extras
    requires exists e :: e in entries && !Filled(e)
    ensures ApplyLines(START, AllEntries(version, releaseDate, entries, keys, extras), 1).Err?
  {
    var st := Headed(version);
    ApplyHead(version, Body(entries, keys, extras) + TailEntries(releaseDate));
    ApplyConcat(st, Body(entries, keys, extras), TailEntries(releaseDate), 3);
    ApplyConcat(st, AllEntryLines(entries), ExtraEntries(keys, extras), 3);
    BlankFails(st, entries, 3);
  }

  lemma ReadFour(a: seq<string>, b: seq<string>, c: seq<string>, d: seq<string>)
    ensures ReadLines(a + b + c + d) == ReadLines(a) + (ReadLines(b) + ReadLines(c) + ReadLines(d))
  {
    ReadLinesConcat(a + b + c, d);
    ReadLinesConcat(a + b, c);
    ReadLinesConcat(a, b);
    JoinFour(ReadLines(a), ReadLines(b), ReadLines(c), ReadLines(d));
  }

  lemma JoinFour(a: seq<Line>, b: seq<Line>, c: seq<Line>, d: seq<Line>)
    ensures a + b + c + d == a + (b + c + d)
  {
  }

  lemma ReadAll(m: Manifest, keys: seq<string>)
    requires InRange(m) && forall k | k in keys :: k in m.extras
    ensures ReadLines(Lines(m, keys))
         == AllEntries(m.version, m.releaseDate, EntriesOf(m.files), keys, m.extras)
  {
    ReadFour(HeadLines(m), FilesLines(m.files), ExtraLines(keys, m.extras), TailLines(m));
    assert ReadLines(FilesLines(m.files)) == AllEntryLines(EntriesOf(m.files)) by { ReadFiles(m.files); }
    assert ReadLines(ExtraLines(keys, m.extras)) == ExtraEntries(keys, m.extras) by { ReadExtras(keys, m.extras); }
    assert ReadLines(HeadLines(m)) == HeadEntries(m.version) by { ReadHead(m); }
    assert ReadLines(TailLines(m)) == TailEntries(m.releaseDate) by { ReadTail(m); }
  }

  lemma ReadHead(m: Manifest)
    requires SingleLine(m.version)
    ensures ReadLines(HeadLines(m)) == HeadEntries(m.version)
  {
    ReadExtra("version", Str(m.version));
    ReadFilesLine();
    ReadTwo(ExtraLine("version", Str(m.version)), "files:");
    assert ExtraLine("version", Str(m.version)) == HeadLines(m)[0];
  }

  lemma ReadTail(m: Manifest)
    requires SingleLine(m.releaseDate)
    ensures ReadLines(TailLines(m)) == TailEntries(m.releaseDate)
  {
    ReadExtra("releaseDate", Str(m.releaseDate));
    ReadTwo(ExtraLine("releaseDate", Str(m.releaseDate)), "");
    assert ExtraLine("releaseDate", Str(m.releaseDate)) == TailLines(m)[0];
    assert TrimEnd("") == "";
  }

  // ---------------------------------------------------------------- printing is one line per line

  ghost predicate OneLines(lines: seq<string>) {
    forall l | l in lines :: SingleLine(l)
  }

  lemma OneLinesConcat(a: seq<string>, b: seq<string>)
    requires OneLines(a) && OneLines(b)
    ensures OneLines(a + b)
  {
  }

  lemma {:induction false} FilesOneLine(files: seq<File>)
    requires forall f | f in files :: FileRead(f)
    ensures OneLines(FilesLines(files))
  {
    if files != [] {
      FileOneLine(files[0]);
      FilesOneLine(files[1..]);
      OneLinesConcat(FileLines(files[0]), FilesLines(files[1..]));
    }
  }

  lemma FileOneLine(f: File)
    requires FileRead(f)
    ensures OneLines(FileLines(f))
  {
    NumberValue(f.size);
    FieldsOneLine(f.url, f.sha512, PrintNumber(f.size));
  }

  lemma FieldsOneLine(url: string, sha: string, size: string)
    requires SingleLine(url) && SingleLine(sha) && SingleLine(size)
    ensures OneLines([URL_FIELD + " " + url, SHA_FIELD + " " + sha, SIZE_FIELD + " " + size])
  {
    SingleLineConcat(URL_FIELD + " ", url);
    SingleLineConcat(SHA_FIELD + " ", sha);
    SingleLineConcat(SIZE_FIELD + " ", size);
    assert SingleLine(URL_FIELD + " ") && SingleLine(SHA_FIELD + " ") && SingleLine(SIZE_FIELD + " ");
  }

  lemma {:induction false} ExtrasOneLine(keys: seq<string>, extras: map<string, Scalar>)
    requires forall k | k in keys :: k in extras && ExtraRead(k, extras[k])
    ensures OneLines(ExtraLines(keys, extras))
  {
    if keys != [] {
      assert ExtraRead(keys[0], extras[keys[0]]);
      ExtraOneLine(keys[0], extras[keys[0]]);
      ExtrasOneLine(keys[1..], extras);
      OneLinesConcat([ExtraLine(keys[0], extras[keys[0]])], ExtraLines(keys[1..], extras));
    }
  }

  lemma KeyOneLine(key: string)
    requires IsKey(key)
    ensures SingleLine(key)
  {
    assert forall c :: IsLetter(c) || IsDigit(c) ==> !IsTerminator(c);
  }

  lemma ExtraOneLine(key: string, v: Scalar)
    requires IsKey(key) && ScalarRead(v)
    ensures SingleLine(ExtraLine(key, v))
  {
    assert SingleLine(SerializeScalarValue(v)) by { ScalarText(v); }
    KeyOneLine(key);
    assert SingleLine(": ");
    SingleLineConcat(key, ": ");
    SingleLineConcat(key + ": ", SerializeScalarValue(v));
  }

  lemma EndsOneLine(m: Manifest)
    requires SingleLine(m.version) && SingleLine(m.releaseDate)
    ensures OneLines(HeadLines(m)) && OneLines(TailLines(m))
  {
    ExtraOneLine("version", Str(m.version));
    ExtraOneLine("releaseDate", Str(m.releaseDate));
    assert ExtraLine("version", Str(m.version)) == HeadLines(m)[0];
    assert ExtraLine("releaseDate", Str(m.releaseDate)) == TailLines(m)[0];
    assert SingleLine("files:") && SingleLine("");
  }

  lemma LinesOneLine(m: Manifest, keys: seq<string>)
    requires WasRead(m) && forall k | k in keys :: k in m.extras
    ensures OneLines(Lines(m, keys))
  {
    EndsOneLine(m);
    FilesOneLine(m.files);
    ExtrasOneLine(keys, m.extras);
    OneLinesConcat(HeadLines(m), FilesLines(m.files));
    OneLinesConcat(HeadLines(m) + FilesLines(m.files), ExtraLines(keys, m.extras));
    OneLinesConcat(HeadLines(m) + FilesLines(m.files) + ExtraLines(keys, m.extras), TailLines(m));
  }

  lemma ParseJoined(lines: seq<string>)
    requires lines != [] && OneLines(lines)
    ensures Parse(JoinLines(lines)) ==
            match ApplyLines(START, ReadLines(lines), 1)
            case Err(e) => Err(e)
            case Ok(st) => Finish(st, |lines|)
  {
    SplitJoin(lines);
  }

  lemma FinishDone(st: State, n: nat)
    requires st.current.None? && st.version.Some? && st.releaseDate.Some?
    requires st.version.value != "" && st.releaseDate.value != "" && st.files != []
    ensures Finish(st, n) == Ok(Manifest(st.version.value, st.releaseDate.value, st.files, st.extras))
  {
  }

  lemma KeysUnreserved(m: Manifest)
    requires InRange(m)
    ensures forall k | k in m.extras :: !Reserved(k)
  {
    forall k | k in m.extras ensures !Reserved(k) { assert ExtraInRange(k, m.extras[k]); }
  }

  lemma EvaluateState(m: Manifest, keys: seq<string>)
    requires InRange(m) && forall k :: k in keys <==> k in m.extras
    requires forall e | e in EntriesOf(m.files) :: Filled(e)
    ensures ApplyLines(START, ReadLines(Lines(m, keys)), 1)
         == Ok(State(ToFiles(EntriesOf(m.files)), m.extras, Some(m.version), Some(m.releaseDate), false, None))
  {
    assert ReadLines(Lines(m, keys)) == AllEntries(m.version, m.releaseDate, EntriesOf(m.files), keys, m.extras) by {
      ReadAll(m, keys);
    }
    KeysUnreserved(m);
    ApplyEvery(m.version, m.releaseDate, EntriesOf(m.files), keys, m.extras, ReadLines(Lines(m, keys)));
  }

  lemma ApplyEvery(version: string, releaseDate: string, entries: seq<Entry>,
                   keys: seq<string>, extras: map<string, Scalar>, lines: seq<Line>)
    requires forall k :: k in keys <==> k in extras
    requires forall k | k in keys :: !Reserved(k)
    requires forall e | e in entries :: Filled(e)
    requires lines == AllEntries(version, releaseDate, entries, keys, extras)
    ensures ApplyLines(START, lines, 1)
         == Ok(State(ToFiles(entries), extras, Some(version), Some(releaseDate), false, None))
  {
    ApplyAll(version, releaseDate, entries, keys, extras);
    assert Restrict(extras, keys) == extras;
  }

  /** What parsing makes of a printed manifest that is in range. */
  lemma Evaluate(m: Manifest, keys: seq<string>)
    requires InRange(m) && forall k :: k in keys <==> k in m.extras
    requires forall e | e in EntriesOf(m.files) :: Filled(e)
    ensures Parse(JoinLines(Lines(m, keys))) == Ok(m.(files := ToFiles(EntriesOf(m.files))))
  {
    var lines := Lines(m, keys);
    var files := ToFiles(EntriesOf(m.files));
    assert OneLines(lines) by { LinesOneLine(m, keys); }
    ParseJoined(lines);
    EvaluateState(m, keys);
    FinishDone(State(files, m.extras, Some(m.version), Some(m.releaseDate), false, None), |lines|);
  }

  lemma EvaluateBlank(m: Manifest, keys: seq<string>)
    requires InRange(m) && forall k :: k in keys <==> k in m.extras
    requires exists e :: e in EntriesOf(m.files) && !Filled(e)
    ensures Parse(JoinLines(Lines(m, keys))).Err?
  {
    LinesOneLine(m, keys);
    ParseJoined(Lines(m, keys));
    ReadAll(m, keys);
    ApplyAllFails(m.version, m.releaseDate, EntriesOf(m.files), keys, m.extras);
  }
}
