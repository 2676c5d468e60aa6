/** Reading and printing update manifests line by line (scripts/lib/update-manifest.ts:
    `parseUpdateManifest`, `parseFileRecord`, `serializeUpdateManifest`). */
module ManifestText {
  import opened Outcomes
  import opened Text
  import opened UpdateManifest

  datatype Error =
    | IncompleteFile(line: nat)
    | ShaWithoutFile(line: nat)
    | SizeWithoutFile(line: nat)
    | Unsupported(line: nat)
    | VersionNotString(line: nat)
    | ReleaseDateNotString(line: nat)
    | MissingVersion
    | MissingReleaseDate
    | MissingFiles

  type Parsed<+T> = Result<T, Error>

  // ---------------------------------------------------------------- lines

  function DropReturn(s: string): string {
    if s != "" && s[|s| - 1] == '\r' then s[..|s| - 1] else s
  }

  /** `split(/\r?\n/)`. */
  function SplitLines(raw: string): (lines: seq<string>)
    ensures lines != []
    decreases |raw|
  {
    var i := IndexOf(raw, '\n');
    if i == |raw| then [raw] else [DropReturn(raw[..i])] + SplitLines(raw[i + 1..])
  }

  /** `join("\n")`. */
  function JoinLines(lines: seq<string>): string {
    if lines == [] then ""
    else if |lines| == 1 then lines[0]
    else lines[0] + "\n" + JoinLines(lines[1..])
  }

  // ---------------------------------------------------------------- fields of a line

  /** The group of `^<prefix>\s*(.+)$` on a line without trailing white space: what
      follows the prefix and the white space after it, if it is non-empty and on one line. */
  function Field(line: string, prefix: string): Option<string> {
    if prefix <= line then
      var group := TrimStart(line[|prefix|..]);
      if group != "" && SingleLine(group) then Some(group) else None
    else None
  }

  const URL_FIELD := "  - url:"
  const SHA_FIELD := "    sha512:"
  const SIZE_FIELD := "    size:"

  function SizeField(line: string): Option<nat> {
    if SIZE_FIELD <= line then
      var group := TrimStart(line[|SIZE_FIELD|..]);
      if group != "" && AllDigits(group) then Some(ParseNat(group)) else None
    else None
  }

  predicate IsKey(s: string) {
    s != "" && IsLetter(s[0]) && forall i | 0 <= i < |s| :: IsLetter(s[i]) || IsDigit(s[i])
  }

  /** `^([A-Za-z][A-Za-z0-9]*):\s*(.+)$`. */
  function TopField(line: string): Option<(string, string)> {
    var i := IndexOf(line, ':');
    if i < |line| && IsKey(line[..i]) then
      var group := TrimStart(line[i + 1..]);
      if group != "" && SingleLine(group) then Some((line[..i], group)) else None
    else None
  }

  predicate Reserved(key: string) {
    key == "version" || key == "releaseDate" || key == "path" || key == "sha512"
  }

  // ---------------------------------------------------------------- the parser's state

  datatype Partial = Partial(url: string, sha512: Option<string>, size: Option<nat>)

  datatype State = State(
    files: seq<File>,
    extras: map<string, Scalar>,
    version: Option<string>,
    releaseDate: Option<string>,
    inFiles: bool,
    current: Option<Partial>)

  const START := State([], map[], None, None, false, None)

  function Complete(p: Partial): Option<File> {
    if p.sha512.Some? && p.size.Some?
    then Some(File(p.url, p.sha512.value, Decimal(false, p.size.value, "")))
    else None
  }

  /** `parseFileRecord`, pushing the file in progress. */
  function Finalize(st: State, n: nat): Parsed<State> {
    if st.current.None? then Ok(st)
    else if Complete(st.current.value).None? then Err(IncompleteFile(n))
    else Ok(st.(files := st.files + [Complete(st.current.value).value], current := None))
  }

  /** What one line says, and which of the patterns it is the first to match. */
  datatype Line =
    | EmptyLine
    | UrlLine(text: string)
    | ShaLine(text: string)
    | SizeLine(size: nat)
    | FilesLine
    | EntryLine(key: string, value: Scalar)
    | OtherLine

  function ReadTrimmed(line: string): Line {
    if line == "" then EmptyLine
    else if Field(line, URL_FIELD).Some? then UrlLine(Normal(Field(line, URL_FIELD).value))
    else if Field(line, SHA_FIELD).Some? then ShaLine(Normal(Field(line, SHA_FIELD).value))
    else if SizeField(line).Some? then SizeLine(SizeField(line).value)
    else if line == "files:" then FilesLine
    else ReadTop(line)
  }

  function ReadTop(line: string): Line {
    if TopField(line).Some? then EntryLine(TopField(line).value.0, ParseScalarValue(TopField(line).value.1))
    else OtherLine
  }

  function ReadLine(raw: string): Line {
    ReadTrimmed(TrimEnd(raw))
  }

  /** What is kept of a url or hash. */
  function Normal(s: string): string {
    StripSingleQuotes(Trim(s))
  }

  function Enter(st: State, key: string, value: Scalar, n: nat): Parsed<State> {
    if key == "version" then
      if value.Str? then Ok(st.(version := Some(value.text))) else Err(VersionNotString(n))
    else if key == "releaseDate" then
      if value.Str? then Ok(st.(releaseDate := Some(value.text))) else Err(ReleaseDateNotString(n))
    else if key == "path" || key == "sha512" then Ok(st)
    else Ok(st.(extras := st.extras[key := value]))
  }

  /** One round of the loop over the lines. */
  function ApplyLine(st: State, line: Line, n: nat): Parsed<State> {
    match line
    case EmptyLine => Ok(st)
    case UrlLine(text) =>
      (match Finalize(st, n)
       case Err(e) => Err(e)
       case Ok(s) => Ok(s.(current := Some(Partial(text, None, None)), inFiles := true)))
    case ShaLine(text) =>
      if st.current.None? then Err(ShaWithoutFile(n))
      else Ok(st.(current := Some(st.current.value.(sha512 := Some(text)))))
    case SizeLine(size) =>
      if st.current.None? then Err(SizeWithoutFile(n))
      else Ok(st.(current := Some(st.current.value.(size := Some(size)))))
    case FilesLine => Ok(st.(inFiles := true))
    case _ =>
      var finalized := if st.inFiles && st.current.Some? then Finalize(st, n) else Ok(st);
      match finalized
      case Err(e) => Err(e)
      case Ok(s) =>
        if line.EntryLine? then Enter(s.(inFiles := false), line.key, line.value, n)
        else Err(Unsupported(n))
  }

  function ApplyLines(st: State, lines: seq<Line>, n: nat): Parsed<State>
    decreases |lines|
  {
    if lines == [] then Ok(st)
    else
      match ApplyLine(st, lines[0], n)
      case Err(e) => Err(e)
      case Ok(s) => ApplyLines(s, lines[1..], n + 1)
  }

  function ReadLines(lines: seq<string>): seq<Line> {
    if lines == [] then [] else [ReadLine(lines[0])] + ReadLines(lines[1..])
  }

  /** The checks after the loop. */
  function Finish(st: State, n: nat): Parsed<Manifest> {
    match Finalize(st, n)
    case Err(e) => Err(e)
    case Ok(s) =>
      if s.version.None? || s.version.value == "" then Err(MissingVersion)
      else if s.releaseDate.None? || s.releaseDate.value == "" then Err(MissingReleaseDate)
      else if s.files == [] then Err(MissingFiles)
      else Ok(Manifest(s.version.value, s.releaseDate.value, s.files, s.extras))
  }

  function Parse(raw: string): Parsed<Manifest> {
    var lines := SplitLines(raw);
    match ApplyLines(START, ReadLines(lines), 1)
    case Err(e) => Err(e)
    case Ok(st) => Finish(st, |lines|)
  }

  // ---------------------------------------------------------------- printing

  /** Code-unit order, in which `toSorted` puts the keys. */
  predicate Before(a: string, b: string) {
    CompareText(a, b) < 0
  }

  /** `keys` are the elements of `s`, each once, in ascending order. */
  ghost predicate SortedKeys(s: set<string>, keys: seq<string>) {
    && (forall k :: k in s <==> k in keys)
    && (forall i, j | 0 <= i < j < |keys| :: Before(keys[i], keys[j]))
  }

  function FileLines(f: File): seq<string> {
    [URL_FIELD + " " + f.url, SHA_FIELD + " " + f.sha512, SIZE_FIELD + " " + PrintNumber(f.size)]
  }

  function FilesLines(files: seq<File>): seq<string> {
    if files == [] then [] else FileLines(files[0]) + FilesLines(files[1..])
  }

  function ExtraLine(key: string, v: Scalar): string {
    key + ": " + SerializeScalarValue(v)
  }

  function ExtraLines(keys: seq<string>, extras: map<string, Scalar>): seq<string>
    requires forall k | k in keys :: k in extras
  {
    if keys == [] then [] else [ExtraLine(keys[0], extras[keys[0]])] + ExtraLines(keys[1..], extras)
  }

  function HeadLines(m: Manifest): seq<string> {
    ["version: " + Quote(m.version), "files:"]
  }

  function TailLines(m: Manifest): seq<string> {
    ["releaseDate: " + Quote(m.releaseDate), ""]
  }

  /** The lines of a manifest whose extra keys come in the order `keys`. */
  function Lines(m: Manifest, keys: seq<string>): seq<string>
    requires forall k | k in keys :: k in m.extras
  {
    HeadLines(m) + FilesLines(m.files) + ExtraLines(keys, m.extras) + TailLines(m)
  }

  /** `text` is what `serializeUpdateManifest` prints for `m`. */
  ghost predicate Prints(m: Manifest, text: string) {
    exists keys :: SortedKeys(m.extras.Keys, keys) && text == JoinLines(Lines(m, keys))
  }
}
