/** What a whole update manifest says, whoever wrote it: which texts
    `parseUpdateManifest` accepts, and what it makes of them
    (scripts/lib/update-manifest.ts). */
module ManifestMeaning {
  import opened Outcomes
  import opened Text
  import opened UpdateManifest
  import opened ManifestText
  import opened ManifestEvaluation
  import opened ManifestReading

  type Lines = seq<Line>

  // ---------------------------------------------------------------- blocks

  predicate Ends(l: Line) {
    l.UrlLine? || l.EntryLine?
  }

  /** The file that begins in line `u` is still being described before line `i`. */
  ghost predicate OpenAt(ls: Lines, u: nat, i: nat) {
    u < i <= |ls| && ls[u].UrlLine? && forall x | u < x < i :: !Ends(ls[x])
  }

  /** Line `j` is the last of its kind in the description of the file of line `u`. */
  ghost predicate LastSha(ls: Lines, u: nat, j: nat) {
    && u < j < |ls| && OpenAt(ls, u, j) && ls[j].ShaLine?
    && forall x | j < x < |ls| && OpenAt(ls, u, x) :: !ls[x].ShaLine?
  }

  ghost predicate LastSize(ls: Lines, u: nat, j: nat) {
    && u < j < |ls| && OpenAt(ls, u, j) && ls[j].SizeLine?
    && forall x | j < x < |ls| && OpenAt(ls, u, x) :: !ls[x].SizeLine?
  }

  ghost predicate ShaFrom(ls: Lines, u: nat, sha512: string) {
    exists j: nat :: LastSha(ls, u, j) && ls[j].text == sha512
  }

  ghost predicate SizeFrom(ls: Lines, u: nat, size: nat) {
    exists j: nat :: LastSize(ls, u, j) && ls[j].size == size
  }

  /** The url of line `u`, and the last hash and the last size before the next file or entry. */
  ghost predicate FileFrom(ls: Lines, u: nat, f: File) {
    && u < |ls| && ls[u] == UrlLine(f.url)
    && ShaFrom(ls, u, f.sha512)
    && IsWhole(f.size) && SizeFrom(ls, u, f.size.whole)
  }

  predicate Rising(us: seq<nat>) {
    forall k, l | 0 <= k < l < |us| :: us[k] < us[l]
  }

  /** `us` are the lines in which files begin. */
  ghost predicate Urls(ls: Lines, us: seq<nat>) {
    && Rising(us)
    && (forall k | 0 <= k < |us| :: us[k] < |ls| && ls[us[k]].UrlLine?)
    && (forall i | 0 <= i < |ls| && ls[i].UrlLine? :: i in us)
  }

  // ---------------------------------------------------------------- entries

  predicate IsEntry(l: Line, key: string) {
    l.EntryLine? && l.key == key
  }

  ghost predicate LastEntry(ls: Lines, key: string, i: nat) {
    i < |ls| && IsEntry(ls[i], key) && forall j | i < j < |ls| :: !IsEntry(ls[j], key)
  }

  /** The last entry under a key has this value. */
  ghost predicate EntryFrom(ls: Lines, key: string, v: Scalar) {
    exists i: nat :: LastEntry(ls, key, i) && ls[i].value == v
  }

  ghost predicate ExtrasFrom(ls: Lines, extras: map<string, Scalar>) {
    && (forall key | key in extras :: !Reserved(key) && EntryFrom(ls, key, extras[key]))
    && (forall i | 0 <= i < |ls| && ls[i].EntryLine? && !Reserved(ls[i].key) :: ls[i].key in extras)
  }

  // ---------------------------------------------------------------- the whole

  /** The version and the date of their last entries, the files in order, and every other
      entry but `path` and `sha512`. */
  ghost predicate Describes(ls: Lines, m: Manifest) {
    && EntryFrom(ls, "version", Str(m.version))
    && EntryFrom(ls, "releaseDate", Str(m.releaseDate))
    && (exists us :: FilesFrom(ls, us, m.files))
    && ExtrasFrom(ls, m.extras)
  }

  ghost predicate FilesFrom(ls: Lines, us: seq<nat>, files: seq<File>) {
    && Urls(ls, us) && |us| == |files|
    && forall k | 0 <= k < |us| :: FileFrom(ls, us[k], files[k])
  }

  /** Every file described before line `i` has a hash and a size when line `i` ends it. */
  ghost predicate CompleteBefore(ls: Lines, i: nat) {
    forall u: nat | OpenAt(ls, u, i) :: Complete(ls, u, i)
  }

  ghost predicate Complete(ls: Lines, u: nat, i: nat)
    requires i <= |ls|
  {
    (exists j :: u < j < i && ls[j].ShaLine?) && (exists j :: u < j < i && ls[j].SizeLine?)
  }

  ghost predicate LineFits(ls: Lines, i: nat)
    requires i < |ls|
  {
    match ls[i]
    case EmptyLine => true
    case FilesLine => true
    case OtherLine => false
    case ShaLine(_) => exists u: nat :: OpenAt(ls, u, i)
    case SizeLine(_) => exists u: nat :: OpenAt(ls, u, i)
    case UrlLine(_) => CompleteBefore(ls, i)
    case EntryLine(key, v) => CompleteBefore(ls, i) && (key == "version" || key == "releaseDate" ==> v.Str?)
  }

  /** Hashes and sizes stand in the description of a file, every description is complete
      where it ends, version and date are strings, and every line says something. */
  ghost predicate WellFormed(ls: Lines) {
    (forall i | 0 <= i < |ls| :: LineFits(ls, i)) && CompleteBefore(ls, |ls|)
  }

  // ---------------------------------------------------------------- what a state stands for

  ghost predicate TextMeans(ls: Lines, key: string, o: Option<string>) {
    match o
    case None => forall i | 0 <= i < |ls| :: !IsEntry(ls[i], key)
    case Some(text) => EntryFrom(ls, key, Str(text))
  }

  /** What is known so far of the file whose description is still open. */
  ghost predicate PartialFrom(ls: Lines, u: nat, p: Partial) {
    && OpenAt(ls, u, |ls|) && ls[u].text == p.url
    && ShaSoFar(ls, u, p.sha512)
    && SizeSoFar(ls, u, p.size)
  }

  ghost predicate ShaSoFar(ls: Lines, u: nat, sha512: Option<string>) {
    match sha512
    case None => forall j | u < j < |ls| :: !ls[j].ShaLine?
    case Some(text) => ShaFrom(ls, u, text)
  }

  ghost predicate SizeSoFar(ls: Lines, u: nat, size: Option<nat>) {
    match size
    case None => forall j | u < j < |ls| :: !ls[j].SizeLine?
    case Some(n) => SizeFrom(ls, u, n)
  }

  ghost predicate ClosedFile(ls: Lines, u: nat, f: File) {
    FileFrom(ls, u, f) && !OpenAt(ls, u, |ls|)
  }

  /** The files so far, and the one in progress. */
  ghost predicate FilesMean(ls: Lines, us: seq<nat>, files: seq<File>, current: Option<Partial>) {
    && Urls(ls, us)
    && |us| == |files| + (if current.Some? then 1 else 0)
    && (forall k | 0 <= k < |files| :: ClosedFile(ls, us[k], files[k]))
    && match current
       case None => forall u: nat :: !OpenAt(ls, u, |ls|)
       case Some(p) => PartialFrom(ls, us[|files|], p)
  }

  ghost predicate Means(ls: Lines, us: seq<nat>, st: State) {
    && FilesMean(ls, us, st.files, st.current)
    && (st.current.Some? ==> st.inFiles)
    && EntriesMean(ls, st)
  }

  ghost predicate EntriesMean(ls: Lines, st: State) {
    && TextMeans(ls, "version", st.version)
    && TextMeans(ls, "releaseDate", st.releaseDate)
    && ExtrasFrom(ls, st.extras)
  }

  // ---------------------------------------------------------------- one line more

  lemma OpenMore(ls: Lines, l: Line, ms: Lines, u: nat)
    requires ms == ls + [l]
    ensures forall i | 0 <= i <= |ls| :: OpenAt(ms, u, i) <==> OpenAt(ls, u, i)
    ensures OpenAt(ms, u, |ms|) <==> (u == |ls| && l.UrlLine?) || (OpenAt(ls, u, |ls|) && !Ends(l))
  {
    assert forall x | 0 <= x < |ls| :: ms[x] == ls[x];
    assert ms[|ls|] == l;
  }

  lemma OpenOnce(ls: Lines, u: nat, v: nat, i: nat)
    requires OpenAt(ls, u, i) && OpenAt(ls, v, i)
    ensures u == v
  {
    assert Ends(ls[u]) && Ends(ls[v]);
  }

  /** A line that is no hash, or does not belong to the file, leaves its hash alone. */
  lemma ShaMore(ls: Lines, l: Line, ms: Lines, u: nat, sha512: string)
    requires ms == ls + [l] && ShaFrom(ls, u, sha512)
    requires !l.ShaLine? || !OpenAt(ls, u, |ls|)
    ensures ShaFrom(ms, u, sha512)
  {
    var j: nat :| LastSha(ls, u, j) && ls[j].text == sha512;
    OpenMore(ls, l, ms, u);
    assert forall x | 0 <= x < |ls| :: ms[x] == ls[x];
    assert LastSha(ms, u, j);
  }

  lemma SizeMore(ls: Lines, l: Line, ms: Lines, u: nat, size: nat)
    requires ms == ls + [l] && SizeFrom(ls, u, size)
    requires !l.SizeLine? || !OpenAt(ls, u, |ls|)
    ensures SizeFrom(ms, u, size)
  {
    var j: nat :| LastSize(ls, u, j) && ls[j].size == size;
    OpenMore(ls, l, ms, u);
    assert forall x | 0 <= x < |ls| :: ms[x] == ls[x];
    assert LastSize(ms, u, j);
  }

  lemma ClosedMore(ls: Lines, l: Line, ms: Lines, u: nat, f: File)
    requires ms == ls + [l] && ClosedFile(ls, u, f)
    ensures ClosedFile(ms, u, f)
  {
    ShaMore(ls, l, ms, u, f.sha512);
    SizeMore(ls, l, ms, u, f.size.whole);
    OpenMore(ls, l, ms, u);
    assert ms[u] == ls[u];
  }

  lemma UrlsMore(ls: Lines, l: Line, ms: Lines, us: seq<nat>)
    requires ms == ls + [l] && Urls(ls, us)
    ensures Urls(ms, if l.UrlLine? then us + [|ls|] else us)
  {
    var vs := if l.UrlLine? then us + [|ls|] else us;
    assert forall x | 0 <= x < |ls| :: ms[x] == ls[x];
    forall i | 0 <= i < |ms| && ms[i].UrlLine? ensures i in vs {
      if i < |ls| {
        assert i in us;
      } else {
        assert l.UrlLine? && vs[|us|] == i;
      }
    }
  }

  lemma FitsMore(ls: Lines, l: Line, ms: Lines, i: nat)
    requires ms == ls + [l] && i < |ls|
    ensures LineFits(ms, i) <==> LineFits(ls, i)
  {
    forall u: nat ensures OpenAt(ms, u, i) <==> OpenAt(ls, u, i) {
      OpenMore(ls, l, ms, u);
    }
    assert forall x | 0 <= x < |ls| :: ms[x] == ls[x];
    forall u: nat | u < i ensures Complete(ms, u, i) <==> Complete(ls, u, i) {
    }
  }

  // ---------------------------------------------------------------- files

  /** Whether the description that a line ends is complete. */
  lemma CompleteMeans(ls: Lines, us: seq<nat>, files: seq<File>, current: Option<Partial>, ms: Lines)
    requires FilesMean(ls, us, files, current) && ls <= ms
    ensures CompleteBefore(ms, |ls|) <==> Closable(current)
  {
    OpenPrefix(ls, ms);
    if current.Some? {
      var u := us[|files|];
      forall v: nat | OpenAt(ms, v, |ls|) ensures v == u {
        OpenOnce(ls, u, v, |ls|);
      }
      PartialComplete(ls, u, current.value, ms);
    }
  }

  lemma OpenPrefix(ls: Lines, ms: Lines)
    requires ls <= ms
    ensures forall u: nat :: OpenAt(ms, u, |ls|) <==> OpenAt(ls, u, |ls|)
  {
    assert forall x | 0 <= x < |ls| :: ms[x] == ls[x];
  }

  lemma PartialComplete(ls: Lines, u: nat, p: Partial, ms: Lines)
    requires PartialFrom(ls, u, p) && ls <= ms
    ensures Complete(ms, u, |ls|) <==> ManifestText.Complete(p).Some?
  {
    assert forall x | 0 <= x < |ls| :: ms[x] == ls[x];
    if p.sha512.Some? {
      var j: nat :| LastSha(ls, u, j) && ls[j].text == p.sha512.value;
      assert ms[j].ShaLine?;
    }
    if p.size.Some? {
      var j: nat :| LastSize(ls, u, j) && ls[j].size == p.size.value;
      assert ms[j].SizeLine?;
    }
  }

  /** The file in progress, complete, is the file of its line. */
  lemma PartialIsFile(ls: Lines, u: nat, p: Partial)
    requires PartialFrom(ls, u, p) && ManifestText.Complete(p).Some?
    ensures FileFrom(ls, u, ManifestText.Complete(p).value)
  {
  }

  lemma FileEnds(ls: Lines, l: Line, ms: Lines, u: nat, f: File)
    requires ms == ls + [l] && FileFrom(ls, u, f) && Ends(l)
    ensures ClosedFile(ms, u, f)
  {
    ShaMore(ls, l, ms, u, f.sha512);
    SizeMore(ls, l, ms, u, f.size.whole);
    OpenMore(ls, l, ms, u);
    assert ms[u] == ls[u];
  }

  /** There is no file in progress, or a complete one. */
  predicate Closable(current: Option<Partial>) {
    current.Some? ==> ManifestText.Complete(current.value).Some?
  }

  function AllFiles(files: seq<File>, current: Option<Partial>): seq<File>
    requires Closable(current)
  {
    if current.None? then files else files + [ManifestText.Complete(current.value).value]
  }

  /** A line that ends a description: all files are closed. */
  lemma EndFiles(ls: Lines, l: Line, ms: Lines, us: seq<nat>, files: seq<File>, current: Option<Partial>)
    requires ms == ls + [l] && FilesMean(ls, us, files, current) && Ends(l)
    requires Closable(current)
    ensures |us| == |AllFiles(files, current)|
    ensures forall k | 0 <= k < |us| :: ClosedFile(ms, us[k], AllFiles(files, current)[k])
  {
    forall k | 0 <= k < |us| ensures ClosedFile(ms, us[k], AllFiles(files, current)[k]) {
      if k < |files| {
        ClosedMore(ls, l, ms, us[k], files[k]);
      } else {
        PartialIsFile(ls, us[k], current.value);
        FileEnds(ls, l, ms, us[k], AllFiles(files, current)[k]);
      }
    }
  }

  lemma UrlFiles(ls: Lines, l: Line, ms: Lines, us: seq<nat>, files: seq<File>, current: Option<Partial>)
    requires ms == ls + [l] && FilesMean(ls, us, files, current) && l.UrlLine?
    requires Closable(current)
    ensures FilesMean(ms, us + [|ls|], AllFiles(files, current), Some(Partial(l.text, None, None)))
  {
    EndFiles(ls, l, ms, us, files, current);
    UrlsMore(ls, l, ms, us);
    OpenMore(ls, l, ms, |ls|);
    assert PartialFrom(ms, |ls|, Partial(l.text, None, None));
  }

  lemma EntryFiles(ls: Lines, l: Line, ms: Lines, us: seq<nat>, files: seq<File>, current: Option<Partial>)
    requires ms == ls + [l] && FilesMean(ls, us, files, current) && l.EntryLine?
    requires Closable(current)
    ensures FilesMean(ms, us, AllFiles(files, current), None)
  {
    EndFiles(ls, l, ms, us, files, current);
    UrlsMore(ls, l, ms, us);
    forall u: nat ensures !OpenAt(ms, u, |ms|) {
      OpenMore(ls, l, ms, u);
    }
  }

  /** The file in progress after a line that does not end it. */
  function Told(p: Partial, l: Line): Partial {
    match l
    case ShaLine(text) => p.(sha512 := Some(text))
    case SizeLine(size) => p.(size := Some(size))
    case _ => p
  }

  lemma ShaTold(ls: Lines, l: Line, ms: Lines, u: nat, p: Partial)
    requires ms == ls + [l] && PartialFrom(ls, u, p) && !Ends(l)
    ensures ShaSoFar(ms, u, Told(p, l).sha512)
  {
    OpenMore(ls, l, ms, u);
    if l.ShaLine? {
      assert LastSha(ms, u, |ls|);
    } else if p.sha512.Some? {
      ShaMore(ls, l, ms, u, p.sha512.value);
    }
  }

  lemma SizeTold(ls: Lines, l: Line, ms: Lines, u: nat, p: Partial)
    requires ms == ls + [l] && PartialFrom(ls, u, p) && !Ends(l)
    ensures SizeSoFar(ms, u, Told(p, l).size)
  {
    OpenMore(ls, l, ms, u);
    if l.SizeLine? {
      assert LastSize(ms, u, |ls|);
    } else if p.size.Some? {
      SizeMore(ls, l, ms, u, p.size.value);
    }
  }

  lemma InnerFiles(ls: Lines, l: Line, ms: Lines, us: seq<nat>, files: seq<File>, current: Option<Partial>)
    requires ms == ls + [l] && FilesMean(ls, us, files, current) && !Ends(l)
    ensures FilesMean(ms, us, files, if current.None? then None else Some(Told(current.value, l)))
  {
    UrlsMore(ls, l, ms, us);
    forall k | 0 <= k < |files| ensures ClosedFile(ms, us[k], files[k]) {
      ClosedMore(ls, l, ms, us[k], files[k]);
    }
    if current.None? {
      forall u: nat ensures !OpenAt(ms, u, |ms|) {
        OpenMore(ls, l, ms, u);
      }
    } else {
      var u := us[|files|];
      ShaTold(ls, l, ms, u, current.value);
      SizeTold(ls, l, ms, u, current.value);
      OpenMore(ls, l, ms, u);
      assert ms[u] == ls[u];
    }
  }

  // ---------------------------------------------------------------- entries

  lemma EntryMore(ls: Lines, l: Line, ms: Lines, key: string, v: Scalar)
    requires ms == ls + [l] && EntryFrom(ls, key, v) && !IsEntry(l, key)
    ensures EntryFrom(ms, key, v)
  {
    var i: nat :| LastEntry(ls, key, i) && ls[i].value == v;
    assert forall x | 0 <= x < |ls| :: ms[x] == ls[x];
    assert LastEntry(ms, key, i);
  }

  lemma EntryLast(ls: Lines, l: Line, ms: Lines)
    requires ms == ls + [l] && l.EntryLine?
    ensures EntryFrom(ms, l.key, l.value)
  {
    assert LastEntry(ms, l.key, |ls|);
  }

  lemma TextMore(ls: Lines, l: Line, ms: Lines, key: string, o: Option<string>)
    requires ms == ls + [l] && TextMeans(ls, key, o) && !IsEntry(l, key)
    ensures TextMeans(ms, key, o)
  {
    if o.Some? {
      EntryMore(ls, l, ms, key, Str(o.value));
    }
  }

  lemma ExtrasMore(ls: Lines, l: Line, ms: Lines, extras: map<string, Scalar>)
    requires ms == ls + [l] && ExtrasFrom(ls, extras)
    ensures ExtrasFrom(ms, if l.EntryLine? && !Reserved(l.key) then extras[l.key := l.value] else extras)
  {
    var es := if l.EntryLine? && !Reserved(l.key) then extras[l.key := l.value] else extras;
    forall key | key in es ensures !Reserved(key) && EntryFrom(ms, key, es[key]) {
      if IsEntry(l, key) {
        EntryLast(ls, l, ms);
      } else {
        EntryMore(ls, l, ms, key, es[key]);
      }
    }
    assert forall x | 0 <= x < |ls| :: ms[x] == ls[x];
  }

  lemma QuietEntries(ls: Lines, l: Line, ms: Lines, st: State)
    requires ms == ls + [l] && EntriesMean(ls, st) && !l.EntryLine?
    ensures EntriesMean(ms, st)
  {
    TextMore(ls, l, ms, "version", st.version);
    TextMore(ls, l, ms, "releaseDate", st.releaseDate);
    ExtrasMore(ls, l, ms, st.extras);
  }

  lemma EnterEntries(ls: Lines, l: Line, ms: Lines, st: State, n: nat, r: Parsed<State>)
    requires ms == ls + [l] && EntriesMean(ls, st) && l.EntryLine?
    requires r == Enter(st, l.key, l.value, n) && r.Ok?
    ensures EntriesMean(ms, r.value)
  {
    ExtrasMore(ls, l, ms, st.extras);
    EntryLast(ls, l, ms);
    if l.key != "version" {
      TextMore(ls, l, ms, "version", st.version);
    }
    if l.key != "releaseDate" {
      TextMore(ls, l, ms, "releaseDate", st.releaseDate);
    }
  }

  // ---------------------------------------------------------------- every line in turn

  lemma EnterOk(st: State, key: string, v: Scalar, n: nat)
    ensures Enter(st, key, v, n).Ok? <==> (key == "version" || key == "releaseDate" ==> v.Str?)
    ensures Enter(st, key, v, n).Ok? ==>
              var s := Enter(st, key, v, n).value;
              s.files == st.files && s.current == st.current && s.inFiles == st.inFiles
  {
  }

  lemma ApplyUrl(st: State, l: Line, n: nat)
    requires l.UrlLine?
    ensures ApplyLine(st, l, n).Ok? <==> Closable(st.current)
    ensures Closable(st.current) ==>
              ApplyLine(st, l, n) == Ok(st.(files := AllFiles(st.files, st.current), inFiles := true,
                                            current := Some(Partial(l.text, None, None))))
  {
  }

  lemma ApplyEntryLine(st: State, l: Line, n: nat)
    requires l.EntryLine? && (st.current.Some? ==> st.inFiles)
    ensures !Closable(st.current) ==> ApplyLine(st, l, n).Err?
    ensures Closable(st.current) ==>
              ApplyLine(st, l, n) == Enter(st.(files := AllFiles(st.files, st.current), inFiles := false,
                                               current := None), l.key, l.value, n)
  {
  }

  lemma StepUrl(ls: Lines, us: seq<nat>, st: State, l: Line, ms: Lines, n: nat)
    requires Means(ls, us, st) && ms == ls + [l] && l.UrlLine?
    ensures ApplyLine(st, l, n).Ok? <==> LineFits(ms, |ls|)
    ensures ApplyLine(st, l, n).Ok? ==> Means(ms, us + [|ls|], ApplyLine(st, l, n).value)
  {
    CompleteMeans(ls, us, st.files, st.current, ms);
    ApplyUrl(st, l, n);
    if Closable(st.current) {
      UrlFiles(ls, l, ms, us, st.files, st.current);
      QuietEntries(ls, l, ms, st);
    }
  }

  lemma StepEntry(ls: Lines, us: seq<nat>, st: State, l: Line, ms: Lines, n: nat)
    requires Means(ls, us, st) && ms == ls + [l] && l.EntryLine?
    ensures ApplyLine(st, l, n).Ok? <==> LineFits(ms, |ls|)
    ensures ApplyLine(st, l, n).Ok? ==> Means(ms, us, ApplyLine(st, l, n).value)
  {
    CompleteMeans(ls, us, st.files, st.current, ms);
    ApplyEntryLine(st, l, n);
    if Closable(st.current) {
      var s := st.(files := AllFiles(st.files, st.current), inFiles := false, current := None);
      EnterOk(s, l.key, l.value, n);
      EntryFiles(ls, l, ms, us, st.files, st.current);
      if Enter(s, l.key, l.value, n).Ok? {
        EnterEntries(ls, l, ms, s, n, Enter(s, l.key, l.value, n));
      }
    }
  }

  lemma StepInner(ls: Lines, us: seq<nat>, st: State, l: Line, ms: Lines, n: nat)
    requires Means(ls, us, st) && ms == ls + [l] && !Ends(l)
    ensures ApplyLine(st, l, n).Ok? <==> LineFits(ms, |ls|)
    ensures ApplyLine(st, l, n).Ok? ==> Means(ms, us, ApplyLine(st, l, n).value)
  {
    OpenPrefix(ls, ms);
    if st.current.Some? {
      assert OpenAt(ls, us[|st.files|], |ls|);
    }
    InnerFiles(ls, l, ms, us, st.files, st.current);
    QuietEntries(ls, l, ms, st);
  }

  lemma Step(ls: Lines, us: seq<nat>, st: State, l: Line, ms: Lines, n: nat) returns (vs: seq<nat>)
    requires Means(ls, us, st) && ms == ls + [l]
    ensures ApplyLine(st, l, n).Ok? <==> LineFits(ms, |ls|)
    ensures ApplyLine(st, l, n).Ok? ==> Means(ms, vs, ApplyLine(st, l, n).value)
  {
    vs := if l.UrlLine? then us + [|ls|] else us;
    if l.UrlLine? {
      StepUrl(ls, us, st, l, ms, n);
    } else if l.EntryLine? {
      StepEntry(ls, us, st, l, ms, n);
    } else {
      StepInner(ls, us, st, l, ms, n);
    }
  }

  lemma LastLine(ls: Lines, l: Line, n: nat)
    ensures ApplyLines(START, ls + [l], n) ==
            match ApplyLines(START, ls, n)
            case Err(e) => Err(e)
            case Ok(s) => ApplyLine(s, l, n + |ls|)
  {
    ApplyConcat(START, ls, [l], n);
    var r := ApplyLines(START, ls, n);
    if r.Ok? {
      ApplyCons(r.value, l, [], n + |ls|);
      assert [l] + [] == [l];
    }
  }

  ghost predicate AllFit(ls: Lines) {
    forall i | 0 <= i < |ls| :: LineFits(ls, i)
  }

  lemma AllFitMore(ls: Lines, l: Line, ms: Lines)
    requires ms == ls + [l]
    ensures AllFit(ms) <==> AllFit(ls) && LineFits(ms, |ls|)
  {
    forall i | 0 <= i < |ls| ensures LineFits(ms, i) <==> LineFits(ls, i) {
      FitsMore(ls, l, ms, i);
    }
  }

  lemma NothingMeans()
    ensures ApplyLines(START, [], 1) == Ok(START) && AllFit([]) && Means([], [], START)
  {
  }

  lemma OneLineMore(ls: Lines, us: seq<nat>, l: Line, ms: Lines) returns (vs: seq<nat>)
    requires ms == ls + [l]
    requires ApplyLines(START, ls, 1).Ok? <==> AllFit(ls)
    requires ApplyLines(START, ls, 1).Ok? ==> Means(ls, us, ApplyLines(START, ls, 1).value)
    ensures ApplyLines(START, ms, 1).Ok? <==> AllFit(ms)
    ensures ApplyLines(START, ms, 1).Ok? ==> Means(ms, vs, ApplyLines(START, ms, 1).value)
  {
    vs := us;
    LastLine(ls, l, 1);
    AllFitMore(ls, l, ms);
    var r := ApplyLines(START, ls, 1);
    if r.Ok? {
      vs := Step(ls, us, r.value, l, ms, 1 + |ls|);
    }
  }

  /** The lines are accepted exactly when each of them fits, and the state after them is
      what they say. */
  lemma {:induction false} LinesMean(ls: Lines) returns (us: seq<nat>)
    ensures ApplyLines(START, ls, 1).Ok? <==> AllFit(ls)
    ensures ApplyLines(START, ls, 1).Ok? ==> Means(ls, us, ApplyLines(START, ls, 1).value)
  {
    us := [];
    if ls == [] {
      NothingMeans();
    } else {
      var before, l := ls[..|ls| - 1], ls[|ls| - 1];
      assert ls == before + [l];
      us := LinesMean(before);
      us := OneLineMore(before, us, l, ls);
    }
  }

  // ---------------------------------------------------------------- the whole manifest

  /** A version, a date and a file. */
  ghost predicate HasAll(ls: Lines) {
    && (exists text :: text != "" && EntryFrom(ls, "version", Str(text)))
    && (exists text :: text != "" && EntryFrom(ls, "releaseDate", Str(text)))
    && exists i :: 0 <= i < |ls| && ls[i].UrlLine?
  }

  lemma EntryOnce(ls: Lines, key: string, v: Scalar, w: Scalar)
    requires EntryFrom(ls, key, v) && EntryFrom(ls, key, w)
    ensures v == w
  {
    var i: nat :| LastEntry(ls, key, i) && ls[i].value == v;
    var j: nat :| LastEntry(ls, key, j) && ls[j].value == w;
    assert IsEntry(ls[i], key) && IsEntry(ls[j], key);
  }

  lemma TextGiven(ls: Lines, key: string, o: Option<string>)
    requires TextMeans(ls, key, o)
    ensures (exists text :: text != "" && EntryFrom(ls, key, Str(text))) <==> o.Some? && o.value != ""
  {
    if text :| text != "" && EntryFrom(ls, key, Str(text)) {
      if o.Some? {
        EntryOnce(ls, key, Str(text), Str(o.value));
      }
    }
  }

  lemma FilesGiven(ls: Lines, us: seq<nat>, files: seq<File>, current: Option<Partial>)
    requires FilesMean(ls, us, files, current)
    requires Closable(current)
    ensures FilesFrom(ls, us, AllFiles(files, current))
    ensures AllFiles(files, current) != [] <==> exists i :: 0 <= i < |ls| && ls[i].UrlLine?
  {
    if current.Some? {
      PartialIsFile(ls, us[|files|], current.value);
    }
    if us != [] {
      assert ls[us[0]].UrlLine?;
    }
  }

  lemma FinishOk(st: State, n: nat)
    ensures Finish(st, n).Ok? <==> Closable(st.current) && st.version.Some? && st.version.value != ""
                                   && st.releaseDate.Some? && st.releaseDate.value != ""
                                   && AllFiles(st.files, st.current) != []
    ensures Finish(st, n).Ok? ==>
              Finish(st, n).value ==
                Manifest(st.version.value, st.releaseDate.value, AllFiles(st.files, st.current), st.extras)
  {
  }

  lemma FinishMeans(ls: Lines, us: seq<nat>, st: State, n: nat)
    requires Means(ls, us, st)
    ensures Finish(st, n).Ok? <==> CompleteBefore(ls, |ls|) && HasAll(ls)
    ensures Finish(st, n).Ok? ==> Describes(ls, Finish(st, n).value)
  {
    CompleteMeans(ls, us, st.files, st.current, ls);
    FinishOk(st, n);
    if Closable(st.current) {
      FilesGiven(ls, us, st.files, st.current);
      TextGiven(ls, "version", st.version);
      TextGiven(ls, "releaseDate", st.releaseDate);
    }
  }

  // ---------------------------------------------------------------- it describes only one

  lemma {:induction false} SameRising(us: seq<nat>, vs: seq<nat>)
    requires Rising(us) && Rising(vs) && forall u :: u in us <==> u in vs
    ensures us == vs
  {
    assert us != [] ==> us[0] in us;
    assert vs != [] ==> vs[0] in vs;
    if us != [] && vs != [] {
      forall u ensures u in us[1..] <==> u in vs[1..] {
        assert u in us <==> u == us[0] || u in us[1..];
        assert u in vs <==> u == vs[0] || u in vs[1..];
      }
      SameRising(us[1..], vs[1..]);
    }
  }

  lemma UrlsOnce(ls: Lines, us: seq<nat>, vs: seq<nat>)
    requires Urls(ls, us) && Urls(ls, vs)
    ensures us == vs
  {
    SameRising(us, vs);
  }

  lemma FileOnce(ls: Lines, u: nat, f: File, g: File)
    requires FileFrom(ls, u, f) && FileFrom(ls, u, g)
    ensures f == g
  {
    var i: nat :| LastSha(ls, u, i) && ls[i].text == f.sha512;
    var j: nat :| LastSha(ls, u, j) && ls[j].text == g.sha512;
    assert i == j;
    var x: nat :| LastSize(ls, u, x) && ls[x].size == f.size.whole;
    var y: nat :| LastSize(ls, u, y) && ls[y].size == g.size.whole;
    assert x == y;
  }

  lemma FilesOnce(ls: Lines, us: seq<nat>, vs: seq<nat>, fs: seq<File>, gs: seq<File>)
    requires FilesFrom(ls, us, fs) && FilesFrom(ls, vs, gs)
    ensures fs == gs
  {
    UrlsOnce(ls, us, vs);
    forall k | 0 <= k < |us| ensures fs[k] == gs[k] {
      FileOnce(ls, us[k], fs[k], gs[k]);
    }
  }

  lemma ExtrasWithin(ls: Lines, es: map<string, Scalar>, fs: map<string, Scalar>)
    requires ExtrasFrom(ls, es) && ExtrasFrom(ls, fs)
    ensures forall key | key in es :: key in fs && fs[key] == es[key]
  {
    forall key | key in es ensures key in fs && fs[key] == es[key] {
      var i: nat :| LastEntry(ls, key, i) && ls[i].value == es[key];
      assert ls[i].key in fs;
      EntryOnce(ls, key, es[key], fs[key]);
    }
  }

  lemma ExtrasOnce(ls: Lines, es: map<string, Scalar>, fs: map<string, Scalar>)
    requires ExtrasFrom(ls, es) && ExtrasFrom(ls, fs)
    ensures es == fs
  {
    ExtrasWithin(ls, es, fs);
    ExtrasWithin(ls, fs, es);
  }

  lemma DescribesOne(ls: Lines, m: Manifest, n: Manifest)
    requires Describes(ls, m) && Describes(ls, n)
    ensures m == n
  {
    EntryOnce(ls, "version", Str(m.version), Str(n.version));
    EntryOnce(ls, "releaseDate", Str(m.releaseDate), Str(n.releaseDate));
    var us :| FilesFrom(ls, us, m.files);
    var vs :| FilesFrom(ls, vs, n.files);
    FilesOnce(ls, us, vs, m.files, n.files);
    ExtrasOnce(ls, m.extras, n.extras);
  }

  // ---------------------------------------------------------------- what parsing does

  ghost predicate NonEmpty(m: Manifest) {
    m.version != "" && m.releaseDate != "" && m.files != []
  }

  lemma DescribedHasAll(ls: Lines, m: Manifest)
    requires Describes(ls, m) && NonEmpty(m)
    ensures HasAll(ls)
  {
    var us :| FilesFrom(ls, us, m.files);
    assert ls[us[0]].UrlLine?;
  }

  lemma DescribedNonEmpty(ls: Lines, m: Manifest)
    requires Describes(ls, m) && HasAll(ls)
    ensures NonEmpty(m)
  {
    var version :| version != "" && EntryFrom(ls, "version", Str(version));
    var date :| date != "" && EntryFrom(ls, "releaseDate", Str(date));
    EntryOnce(ls, "version", Str(m.version), Str(version));
    EntryOnce(ls, "releaseDate", Str(m.releaseDate), Str(date));
    var us :| FilesFrom(ls, us, m.files);
    var i :| 0 <= i < |ls| && ls[i].UrlLine?;
    assert i in us;
  }

  /** A manifest exactly when the lines are well formed and give one, and then that one. */
  ghost predicate Meant(ls: Lines, r: Parsed<Manifest>) {
    && (r.Ok? <==> WellFormed(ls) && HasAll(ls))
    && (r.Ok? ==> Describes(ls, r.value))
  }

  lemma ParsedMeans(raw: string, ls: Lines)
    requires ls == ReadLines(SplitLines(raw))
    ensures Meant(ls, Parse(raw))
  {
    var us := LinesMean(ls);
    var r := ApplyLines(START, ls, 1);
    if r.Ok? {
      FinishMeans(ls, us, r.value, |SplitLines(raw)|);
    }
  }

  /** A text is read as a manifest exactly when its lines are well formed and describe that
      manifest, and this has a version, a date and a file. */
  lemma ParseMeans(raw: string, m: Manifest)
    ensures var ls := ReadLines(SplitLines(raw));
            Parse(raw) == Ok(m) <==> WellFormed(ls) && Describes(ls, m) && NonEmpty(m)
  {
    var ls := ReadLines(SplitLines(raw));
    ParsedMeans(raw, ls);
    if Parse(raw) == Ok(m) {
      DescribedNonEmpty(ls, m);
    }
    if WellFormed(ls) && Describes(ls, m) && NonEmpty(m) {
      DescribedHasAll(ls, m);
      DescribesOne(ls, m, Parse(raw).value);
    }
  }

  // ---------------------------------------------------------------- the lines of a text

  /** Each line followed by a line feed, or a return and a line feed, and the last by nothing. */
  function Terminated(lines: seq<string>, crlf: seq<bool>): string
    requires |lines| == |crlf| + 1
  {
    if |lines| == 1 then lines[0]
    else lines[0] + (if crlf[0] then "\r\n" else "\n") + Terminated(lines[1..], crlf[1..])
  }

  lemma {:induction false} SplitTerminated(lines: seq<string>, crlf: seq<bool>)
    requires |lines| == |crlf| + 1 && forall l | l in lines :: SingleLine(l)
    ensures SplitLines(Terminated(lines, crlf)) == lines
  {
    var raw := Terminated(lines, crlf);
    if |lines| == 1 {
      assert SingleLine(lines[0]);
      assert IndexOf(raw, '\n') == |raw|;
    } else {
      SplitTerminated(lines[1..], crlf[1..]);
      SplitEnded(lines[0], crlf[0], Terminated(lines[1..], crlf[1..]), raw);
    }
  }

  lemma SplitFirst(raw: string, first: string, rest: string)
    requires '\n' !in first && raw == first + ['\n'] + rest
    ensures SplitLines(raw) == [DropReturn(first)] + SplitLines(rest)
  {
    IndexAfter(first, '\n', rest);
    assert raw[..|first|] == first && raw[|first| + 1..] == rest;
  }

  lemma SplitEnded(line: string, crlf: bool, rest: string, raw: string)
    requires SingleLine(line) && raw == line + (if crlf then "\r\n" else "\n") + rest
    ensures SplitLines(raw) == [line] + SplitLines(rest)
  {
    var first := if crlf then line + "\r" else line;
    assert raw == first + ['\n'] + rest;
    SplitFirst(raw, first, rest);
    DropsReturn(line, first);
  }

  lemma DropsReturn(line: string, first: string)
    requires SingleLine(line) && (first == line || first == line + "\r")
    ensures DropReturn(first) == line
  {
    if first == line && line != "" {
      assert !IsTerminator(line[|line| - 1]);
    }
  }

  lemma {:induction false} ReadEach(lines: seq<string>)
    ensures |ReadLines(lines)| == |lines|
    ensures forall i | 0 <= i < |lines| :: ReadLines(lines)[i] == ReadLine(lines[i])
  {
    if lines != [] {
      ReadEach(lines[1..]);
    }
  }

  /** A manifest whoever wrote it: its lines, ended in either way, each saying one thing. It
      is read as the manifest these things describe. */
  lemma WrittenIsRead(lines: seq<string>, crlf: seq<bool>, ls: Lines, m: Manifest)
    requires |lines| == |crlf| + 1 == |ls|
    requires forall i | 0 <= i < |lines| :: SingleLine(lines[i]) && Says(lines[i], ls[i])
    ensures Parse(Terminated(lines, crlf)) == Ok(m) <==> WellFormed(ls) && Describes(ls, m) && NonEmpty(m)
  {
    SplitTerminated(lines, crlf);
    ReadEach(lines);
    forall i | 0 <= i < |lines| ensures ReadLines(lines)[i] == ls[i] {
      ReadsAsSaid(lines[i], ls[i]);
    }
    assert ReadLines(lines) == ls;
    ParseMeans(Terminated(lines, crlf), m);
  }
}
