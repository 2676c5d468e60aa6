/** Merging update manifests (scripts/lib/update-manifest.ts: `mergeUpdateManifests`,
    `mergeExtras`): a partial join, up to the names every object inherits. */
module ManifestMerge {
  import opened Outcomes
  import opened Text
  import opened UpdateManifest

  datatype MergeError =
    | DifferentVersions
    | ConflictingFile(url: string)
    | ConflictingExtra(key: string)

  /** The members of `Object.prototype`. `merged[key]` finds them on a record that has no
      such key of its own. */
  const INHERITED: set<string> := {
    "constructor", "hasOwnProperty", "isPrototypeOf", "propertyIsEnumerable", "toLocaleString",
    "toString", "valueOf", "__proto__", "__defineGetter__", "__defineSetter__",
    "__lookupGetter__", "__lookupSetter__"
  }

  // ---------------------------------------------------------------- what the merge means

  /** No url is given two different entries. */
  ghost predicate Consistent(files: seq<File>) {
    forall f, g | f in files && g in files && f.url == g.url :: f == g
  }

  /** The first entry of each url outside `seen`, in order. */
  function Dedup(files: seq<File>, seen: set<string>): seq<File> {
    if files == [] then []
    else if files[0].url in seen then Dedup(files[1..], seen)
    else [files[0]] + Dedup(files[1..], seen + {files[0].url})
  }

  ghost predicate Agree(a: map<string, Scalar>, b: map<string, Scalar>) {
    forall k | k in a && k in b :: a[k] == b[k]
  }

  /** No url and no extra key carries conflicting values, and the versions match. */
  ghost predicate NoConflict(a: Manifest, b: Manifest) {
    && a.version == b.version
    && Consistent(a.files + b.files)
    && Agree(a.extras, b.extras)
  }

  /** No key of the second record alone is among `names`. */
  ghost predicate Avoids(a: map<string, Scalar>, b: map<string, Scalar>, names: set<string>) {
    forall k | k in b && k !in a :: k !in names
  }

  /** No extra key of the second manifest alone is an inherited name. */
  ghost predicate NoShadow(a: map<string, Scalar>, b: map<string, Scalar>) {
    Avoids(a, b, INHERITED)
  }

  function Later(a: string, b: string): string {
    if CompareText(a, b) >= 0 then a else b
  }

  ghost function Merge(a: Manifest, b: Manifest): Option<Manifest> {
    if NoConflict(a, b) && NoShadow(a.extras, b.extras)
    then Some(Manifest(a.version, Later(a.releaseDate, b.releaseDate), Dedup(a.files + b.files, {}), a.extras + b.extras))
    else None
  }

  // ---------------------------------------------------------------- the loops

  function IndexOfUrl(files: seq<File>, url: string): (i: nat)
    ensures i <= |files| && (i < |files| ==> files[i].url == url)
    ensures forall j | 0 <= j < i :: files[j].url != url
  {
    if files == [] || files[0].url == url then 0 else 1 + IndexOfUrl(files[1..], url)
  }

  /** `filesByUrl` keeps its keys in the order they were first set. */
  method MergeFiles(files: seq<File>) returns (r: Result<seq<File>, MergeError>)
    ensures r.Ok? <==> Consistent(files)
    ensures r.Ok? ==> r.value == Dedup(files, {})
    ensures r.Err? ==> r.error.ConflictingFile? && Contested(files, r.error.url)
  {
    var filesByUrl: seq<File> := [];
    var i := 0;
    while i < |files|
      invariant i <= |files|
      invariant Consistent(files[..i])
      invariant filesByUrl == Dedup(files[..i], {})
    {
      var file := files[i];
      var at := IndexOfUrl(filesByUrl, file.url);
      if at < |filesByUrl| {
        var existing := filesByUrl[at];
        KnownNext(files, i, filesByUrl, existing);
        if existing.sha512 != file.sha512 || existing.size != file.size {
          return Err(ConflictingFile(file.url));
        }
        assert existing == file;
        filesByUrl := filesByUrl[at := file];
      } else {
        NewNext(files, i, filesByUrl);
        filesByUrl := filesByUrl + [file];
      }
      i := i + 1;
    }
    assert files[..i] == files;
    r := Ok(filesByUrl);
  }

  /** Some url is given two different entries. */
  ghost predicate Contested(files: seq<File>, url: string) {
    exists f, g :: f in files && g in files && f != g && f.url == g.url == url
  }

  /** A file whose url is already kept changes nothing, or is contested. */
  lemma KnownNext(files: seq<File>, i: nat, kept: seq<File>, known: File)
    requires i < |files| && Consistent(files[..i]) && kept == Dedup(files[..i], {})
    requires known in kept && known.url == files[i].url
    ensures Dedup(files[..i + 1], {}) == kept
    ensures if known == files[i] then Consistent(files[..i + 1]) else Contested(files, files[i].url)
  {
    assert files[..i + 1] == files[..i] + [files[i]];
    KnownFile(files, i, known);
    KeptUrl(files[..i], kept, known);
    DedupSnoc(files[..i], files[i], {});
  }

  /** A file with a new url is kept. */
  lemma NewNext(files: seq<File>, i: nat, kept: seq<File>)
    requires i < |files| && Consistent(files[..i]) && kept == Dedup(files[..i], {})
    requires forall j | 0 <= j < |kept| :: kept[j].url != files[i].url
    ensures Dedup(files[..i + 1], {}) == kept + [files[i]]
    ensures Consistent(files[..i + 1])
  {
    assert files[..i + 1] == files[..i] + [files[i]];
    FreshUrl(files[..i], kept, files[i].url);
    NewUrl(files[..i], files[i]);
    DedupSnoc(files[..i], files[i], {});
  }

  lemma KeptUrl(files: seq<File>, kept: seq<File>, f: File)
    requires kept == Dedup(files, {}) && f in kept
    ensures f.url in Urls(files)
  {
    DedupUrls(files, {});
    UrlIn(kept, f);
  }

  lemma FreshUrl(files: seq<File>, kept: seq<File>, url: string)
    requires kept == Dedup(files, {}) && forall j | 0 <= j < |kept| :: kept[j].url != url
    ensures url !in Urls(files)
  {
    DedupUrls(files, {});
    if url in Urls(files) {
      var f := FileWith(kept, url);
    }
  }

  lemma KnownFile(files: seq<File>, i: nat, known: File)
    requires i < |files| && Consistent(files[..i])
    requires known in Dedup(files[..i], {}) && known.url == files[i].url
    ensures if known == files[i] then Consistent(files[..i] + [files[i]]) else Contested(files, files[i].url)
  {
    DedupSubset(files[..i], {});
    assert known in files[..i];
    if known == files[i] {
      ConsistentSnoc(files[..i], known);
    } else {
      assert known in files && files[i] in files;
    }
  }

  lemma NewUrl(files: seq<File>, f: File)
    requires Consistent(files) && f.url !in Urls(files)
    ensures Consistent(files + [f])
  {
    forall g | g in files ensures g.url != f.url {
      UrlIn(files, g);
    }
  }

  lemma ConsistentSnoc(files: seq<File>, f: File)
    requires Consistent(files) && f in files
    ensures Consistent(files + [f])
  {
  }

  /** The entries of `secondary` outside `todo`, set over those of `primary`. */
  ghost function Overlaid(primary: map<string, Scalar>, secondary: map<string, Scalar>, todo: set<string>): map<string, Scalar> {
    primary + map k | k in secondary && k !in todo :: secondary[k]
  }

  lemma OverlaidNext(primary: map<string, Scalar>, secondary: map<string, Scalar>, todo: set<string>, key: string)
    requires key in todo && key in secondary
    ensures Overlaid(primary, secondary, todo)[key := secondary[key]] == Overlaid(primary, secondary, todo - {key})
    ensures key in Overlaid(primary, secondary, todo) <==> key in primary
    ensures key in primary ==> Overlaid(primary, secondary, todo)[key] == primary[key]
  {
  }

  lemma OverlaidEnds(primary: map<string, Scalar>, secondary: map<string, Scalar>)
    ensures Overlaid(primary, secondary, secondary.Keys) == primary
    ensures Overlaid(primary, secondary, {}) == primary + secondary
  {
  }

  /** `inherited` holds the names that `merged[key]` finds on the prototype. */
  method MergeExtras(primary: map<string, Scalar>, secondary: map<string, Scalar>, inherited: set<string>)
    returns (r: Result<map<string, Scalar>, MergeError>)
    ensures r.Ok? <==> Agree(primary, secondary) && Avoids(primary, secondary, inherited)
    ensures r.Ok? ==> r.value == primary + secondary
    ensures r.Err? ==> r.error.ConflictingExtra? && r.error.key in secondary
    ensures r.Err? && r.error.key in primary ==> primary[r.error.key] != secondary[r.error.key]
    ensures r.Err? && r.error.key !in primary ==> r.error.key in inherited
  {
    var merged := primary;
    var todo := secondary.Keys;
    OverlaidEnds(primary, secondary);
    while todo != {}
      invariant todo <= secondary.Keys
      invariant merged == Overlaid(primary, secondary, todo)
      invariant forall k | k in secondary && k !in todo ::
                  if k in primary then primary[k] == secondary[k] else k !in inherited
      decreases |todo|
    {
      var key :| key in todo;
      OverlaidNext(primary, secondary, todo, key);
      var conflicting := if key in merged then merged[key] != secondary[key] else key in inherited;
      if conflicting {
        return Err(ConflictingExtra(key));
      }
      merged := merged[key := secondary[key]];
      todo := todo - {key};
    }
    r := Ok(merged);
  }

  method MergeUpdateManifests(primary: Manifest, secondary: Manifest) returns (r: Result<Manifest, MergeError>)
    ensures r.Ok? <==> && NoConflict(primary, secondary)
                       && !exists k :: k in INHERITED && k in secondary.extras && k !in primary.extras
    ensures r.Ok? ==> Some(r.value) == Merge(primary, secondary)
    ensures r.Ok? ==> IsMerged(primary, secondary, r.value)
    ensures r == Err(DifferentVersions) <==> primary.version != secondary.version
  {
    SucceedsExactly(primary, secondary);
    if primary.version != secondary.version {
      return Err(DifferentVersions);
    }
    var files :- MergeFiles(primary.files + secondary.files);
    var extras :- MergeExtras(primary.extras, secondary.extras, INHERITED);
    r := Ok(Manifest(primary.version, Later(primary.releaseDate, secondary.releaseDate), files, extras));
    MergedIs(primary, secondary, r.value);
  }

  // ---------------------------------------------------------------- what a merge holds

  predicate FirstOfUrl(files: seq<File>, i: nat)
    requires i < |files|
  {
    forall j | 0 <= j < i :: files[j].url != files[i].url
  }

  /** `us` are the places of the files kept, in order: those where a url first occurs. */
  ghost predicate FirstsAt(files: seq<File>, us: seq<nat>, kept: seq<File>) {
    && |us| == |kept|
    && (forall k, l | 0 <= k < l < |us| :: us[k] < us[l])
    && (forall k | 0 <= k < |us| :: us[k] < |files| && FirstOfUrl(files, us[k]) && kept[k] == files[us[k]])
    && (forall i | 0 <= i < |files| && FirstOfUrl(files, i) :: i in us)
  }

  /** The version of both; the later date in code-unit order, the files of both in order,
      of each url the first; the extras of both. */
  ghost predicate IsMerged(a: Manifest, b: Manifest, m: Manifest) {
    && m.version == a.version == b.version
    && LatestOf(a.releaseDate, b.releaseDate, m.releaseDate)
    && (exists us :: FirstsAt(a.files + b.files, us, m.files))
    && (forall key :: key in m.extras <==> key in a.extras || key in b.extras)
    && (forall key | key in a.extras :: m.extras[key] == a.extras[key])
    && (forall key | key in b.extras :: m.extras[key] == b.extras[key])
  }

  /** One of the two, and neither comes after it. */
  ghost predicate LatestOf(a: string, b: string, date: string) {
    (date == a || date == b) && !TextBelow(date, a) && !TextBelow(date, b)
  }

  lemma LaterIsLatest(a: string, b: string)
    ensures LatestOf(a, b, Later(a, b))
  {
    CompareTextMeans(a, b);
    CompareTextMeans(a, a);
    CompareTextMeans(b, b);
    CompareTextMeans(b, a);
    TextOrder(a, b, a);
    TextOrder(a, a, a);
    TextOrder(b, b, b);
  }

  lemma FirstMore(files: seq<File>, f: File, all: seq<File>)
    requires all == files + [f]
    ensures forall i | 0 <= i < |files| :: FirstOfUrl(all, i) <==> FirstOfUrl(files, i)
    ensures FirstOfUrl(all, |files|) <==> f.url !in Urls(files)
  {
    assert forall i | 0 <= i < |files| :: all[i] == files[i];
    if f.url in Urls(files) {
      var g := FileWith(files, f.url);
      var j :| 0 <= j < |files| && files[j] == g;
      assert all[j].url == all[|files|].url;
    } else {
      forall j | 0 <= j < |files| ensures all[j].url != f.url {
        UrlIn(files, files[j]);
      }
    }
  }

  lemma {:induction false} DedupFirsts(files: seq<File>) returns (us: seq<nat>)
    ensures FirstsAt(files, us, Dedup(files, {}))
  {
    us := [];
    if files != [] {
      var before, f := files[..|files| - 1], files[|files| - 1];
      assert files == before + [f];
      us := DedupFirsts(before);
      DedupSnoc(before, f, {});
      FirstMore(before, f, files);
      us := FirstsMore(before, f, files, us, Dedup(before, {}));
    }
  }

  lemma FirstsMore(files: seq<File>, f: File, all: seq<File>, us: seq<nat>, kept: seq<File>) returns (vs: seq<nat>)
    requires all == files + [f] && FirstsAt(files, us, kept)
    ensures FirstsAt(all, vs, if f.url in Urls(files) then kept else kept + [f])
  {
    FirstMore(files, f, all);
    if f.url in Urls(files) {
      vs := us;
      KnownFirsts(files, f, all, us, kept);
    } else {
      vs := us + [|files|];
      NewFirsts(files, f, all, us, kept);
    }
  }

  lemma KnownFirsts(files: seq<File>, f: File, all: seq<File>, us: seq<nat>, kept: seq<File>)
    requires all == files + [f] && FirstsAt(files, us, kept) && !FirstOfUrl(all, |files|)
    requires forall i | 0 <= i < |files| :: FirstOfUrl(all, i) <==> FirstOfUrl(files, i)
    ensures FirstsAt(all, us, kept)
  {
  }

  lemma NewFirsts(files: seq<File>, f: File, all: seq<File>, us: seq<nat>, kept: seq<File>)
    requires all == files + [f] && FirstsAt(files, us, kept) && FirstOfUrl(all, |files|)
    requires forall i | 0 <= i < |files| :: FirstOfUrl(all, i) <==> FirstOfUrl(files, i)
    ensures FirstsAt(all, us + [|files|], kept + [f])
  {
    var vs := us + [|files|];
    forall i | 0 <= i < |all| && FirstOfUrl(all, i) ensures i in vs {
      if i < |files| {
        assert i in us;
      } else {
        assert vs[|us|] == i;
      }
    }
  }

  lemma MergedIs(a: Manifest, b: Manifest, m: Manifest)
    requires Merge(a, b) == Some(m)
    ensures IsMerged(a, b, m)
  {
    LaterIsLatest(a.releaseDate, b.releaseDate);
    var us := DedupFirsts(a.files + b.files);
  }

  // ---------------------------------------------------------------- every url once

  function Urls(files: seq<File>): set<string> {
    if files == [] then {} else {files[0].url} + Urls(files[1..])
  }

  lemma {:induction false} UrlIn(files: seq<File>, f: File)
    requires f in files
    ensures f.url in Urls(files)
  {
    if f != files[0] {
      UrlIn(files[1..], f);
    }
  }

  lemma {:induction false} FileWith(files: seq<File>, url: string) returns (f: File)
    requires url in Urls(files)
    ensures f in files && f.url == url
  {
    if files[0].url == url {
      f := files[0];
    } else {
      f := FileWith(files[1..], url);
    }
  }

  ghost predicate DistinctUrls(files: seq<File>) {
    forall i, j | 0 <= i < j < |files| :: files[i].url != files[j].url
  }

  lemma {:induction false} DedupSubset(files: seq<File>, seen: set<string>)
    ensures forall f | f in Dedup(files, seen) :: f in files
    decreases |files|
  {
    if files != [] {
      assert files == [files[0]] + files[1..];
      DedupSubset(files[1..], seen);
      DedupSubset(files[1..], seen + {files[0].url});
    }
  }

  lemma {:induction false} DedupUrls(files: seq<File>, seen: set<string>)
    ensures Urls(Dedup(files, seen)) == Urls(files) - seen
    decreases |files|
  {
    if files != [] {
      var rest := files[1..];
      var more := seen + {files[0].url};
      assert files == [files[0]] + rest;
      assert ([files[0]] + Dedup(rest, more))[1..] == Dedup(rest, more);
      DedupUrls(rest, seen);
      DedupUrls(rest, more);
    }
  }

  lemma {:induction false} DedupDistinct(files: seq<File>, seen: set<string>)
    ensures DistinctUrls(Dedup(files, seen))
    decreases |files|
  {
    if files != [] {
      var rest := files[1..];
      var more := seen + {files[0].url};
      DedupDistinct(rest, seen);
      DedupDistinct(rest, more);
      DedupUrls(rest, more);
      forall f | f in Dedup(rest, more) ensures f.url != files[0].url {
        UrlIn(Dedup(rest, more), f);
      }
    }
  }

  lemma {:induction false} DedupSnoc(files: seq<File>, f: File, seen: set<string>)
    ensures Dedup(files + [f], seen)
         == if f.url in seen || f.url in Urls(files) then Dedup(files, seen) else Dedup(files, seen) + [f]
    decreases |files|
  {
    if files == [] {
      assert files + [f] == [f];
    } else {
      var rest := files[1..];
      assert (files + [f])[1..] == rest + [f];
      assert files == [files[0]] + rest;
      DedupSnoc(rest, f, if files[0].url in seen then seen else seen + {files[0].url});
    }
  }

  /** Without conflicts the merge holds exactly the files of both sides, each url once. */
  lemma EveryUrlOnce(a: Manifest, b: Manifest)
    requires Merge(a, b).Some?
    ensures var files := Merge(a, b).value.files;
            && DistinctUrls(files)
            && forall f :: f in files <==> f in a.files || f in b.files
  {
    var all := a.files + b.files;
    var files := Merge(a, b).value.files;
    DedupDistinct(all, {});
    DedupSubset(all, {});
    DedupUrls(all, {});
    forall f | f in all ensures f in files {
      UrlIn(all, f);
      var g := FileWith(files, f.url);
    }
  }

  // ---------------------------------------------------------------- when it succeeds

  /** Merging fails although nothing conflicts exactly when an inherited name is an extra
      key of the second manifest alone. */
  lemma SucceedsExactly(a: Manifest, b: Manifest)
    ensures Merge(a, b).Some?
       <==> NoConflict(a, b) && !exists k :: k in INHERITED && k in b.extras && k !in a.extras
  {
  }

  /** The two orders of merging disagree although no value conflicts: an extra named
      `constructor` is kept when it comes first and refused when it comes second. */
  lemma OrderMatters()
    ensures var f := File("a", "b", Decimal(false, 1, ""));
            var plain := Manifest("1.0.0", "2026", [f], map[]);
            var odd := Manifest("1.0.0", "2026", [f], map["constructor" := Bool(true)]);
            && NoConflict(odd, plain) && NoConflict(plain, odd)
            && Merge(odd, plain).Some? && Merge(plain, odd).None?
  {
    assert "constructor" in INHERITED;
  }

  /** Grouping matters too: two manifests with an extra named `constructor` merge with a
      plain one between them from the left, and not from the right. */
  lemma GroupingMatters()
    ensures var f := File("a", "b", Decimal(false, 1, ""));
            var plain := Manifest("1.0.0", "2026", [f], map[]);
            var odd := Manifest("1.0.0", "2026", [f], map["constructor" := Bool(true)]);
            && NoThreeConflict(odd, plain, odd)
            && MergeThen(Merge(odd, plain), odd).Some? && MergeInto(odd, Merge(plain, odd)).None?
  {
    var f := File("a", "b", Decimal(false, 1, ""));
    var plain := Manifest("1.0.0", "2026", [f], map[]);
    var odd := Manifest("1.0.0", "2026", [f], map["constructor" := Bool(true)]);
    assert "constructor" in INHERITED && "constructor" in odd.extras;
    assert plain.extras + odd.extras == odd.extras == odd.extras + plain.extras;
    MergeLeft(odd, plain, odd);
    MergeRight(odd, plain, odd);
  }

  // ---------------------------------------------------------------- the laws

  /** The same manifest up to the order of its files. */
  ghost predicate Alike(a: Option<Manifest>, b: Option<Manifest>) {
    match (a, b)
    case (None, None) => true
    case (Some(x), Some(y)) =>
      && x.(files := []) == y.(files := [])
      && multiset(x.files) == multiset(y.files)
    case _ => false
  }

  lemma ConflictSymmetric(a: Manifest, b: Manifest)
    ensures NoConflict(a, b) <==> NoConflict(b, a)
  {
    assert forall f :: f in a.files + b.files <==> f in b.files + a.files;
  }

  lemma LaterSymmetric(a: string, b: string)
    ensures Later(a, b) == Later(b, a)
  {
    TextOrder(a, b, a);
  }

  /** Files with distinct urls that are the same as a set are the same as a multiset. */
  lemma DistinctMultiset(x: seq<File>, y: seq<File>)
    requires DistinctUrls(x) && DistinctUrls(y) && forall f :: f in x <==> f in y
    ensures multiset(x) == multiset(y)
  {
    forall f ensures multiset(x)[f] == multiset(y)[f] {
      DistinctCount(x, f);
      DistinctCount(y, f);
    }
  }

  lemma {:induction false} DistinctCount(x: seq<File>, f: File)
    requires DistinctUrls(x)
    ensures multiset(x)[f] == if f in x then 1 else 0
  {
    if x != [] {
      assert x == [x[0]] + x[1..];
      DistinctCount(x[1..], f);
    }
  }

  /** Merging is commutative up to the order of the files exactly when the values conflict
      or both orders meet, or neither meets, an inherited name. */
  lemma Commutes(a: Manifest, b: Manifest)
    ensures Alike(Merge(a, b), Merge(b, a))
       <==> !NoConflict(a, b) || (NoShadow(a.extras, b.extras) <==> NoShadow(b.extras, a.extras))
  {
    ConflictSymmetric(a, b);
    LaterSymmetric(a.releaseDate, b.releaseDate);
    if Merge(a, b).Some? && Merge(b, a).Some? {
      EveryUrlOnce(a, b);
      EveryUrlOnce(b, a);
      DistinctMultiset(Merge(a, b).value.files, Merge(b, a).value.files);
      assert a.extras + b.extras == b.extras + a.extras;
    }
  }

  lemma {:induction false} DedupSeen(files: seq<File>, seen: set<string>)
    requires Urls(files) <= seen
    ensures Dedup(files, seen) == []
    decreases |files|
  {
    if files != [] {
      assert files == [files[0]] + files[1..];
      DedupSeen(files[1..], seen);
    }
  }

  lemma {:induction false} DedupConcat(x: seq<File>, y: seq<File>, seen: set<string>)
    ensures Dedup(x + y, seen) == Dedup(x, seen) + Dedup(y, seen + Urls(x))
    decreases |x|
  {
    if x == [] {
      assert x + y == y && seen + Urls(x) == seen;
    } else {
      assert (x + y)[1..] == x[1..] + y && x == [x[0]] + x[1..];
      var more := if x[0].url in seen then seen else seen + {x[0].url};
      DedupConcat(x[1..], y, more);
      assert more + Urls(x[1..]) == seen + Urls(x);
    }
  }

  lemma {:induction false} DedupDistinctUrls(files: seq<File>, seen: set<string>)
    requires DistinctUrls(files) && Urls(files) !! seen
    ensures Dedup(files, seen) == files
    decreases |files|
  {
    if files != [] {
      assert files == [files[0]] + files[1..];
      if files[0].url in Urls(files[1..]) {
        var f := FileWith(files[1..], files[0].url);
      }
      DedupDistinctUrls(files[1..], seen + {files[0].url});
    }
  }

  lemma DedupDoubled(files: seq<File>)
    ensures Dedup(files + files, {}) == Dedup(files, {})
  {
    DedupConcat(files, files, {});
    assert {} + Urls(files) == Urls(files);
    DedupSeen(files, Urls(files));
  }

  lemma DistinctConsistent(files: seq<File>)
    requires DistinctUrls(files)
    ensures Consistent(files + files)
  {
    forall f, g | f in files && g in files && f.url == g.url ensures f == g {
      var i :| 0 <= i < |files| && files[i] == f;
      var j :| 0 <= j < |files| && files[j] == g;
    }
  }

  /** Merging a manifest with itself gives it back exactly when its urls are distinct. */
  lemma Idempotent(a: Manifest)
    ensures Merge(a, a) == Some(a) <==> DistinctUrls(a.files)
  {
    DedupDoubled(a.files);
    DedupDistinct(a.files, {});
    TextOrder(a.releaseDate, a.releaseDate, a.releaseDate);
    assert a.extras + a.extras == a.extras;
    if DistinctUrls(a.files) {
      DedupDistinctUrls(a.files, {});
      DistinctConsistent(a.files);
    }
  }

  lemma {:induction false} DedupTwice(files: seq<File>, seen: set<string>, more: set<string>)
    requires seen <= more
    ensures Dedup(Dedup(files, seen), more) == Dedup(files, more)
    decreases |files|
  {
    if files != [] {
      var url := files[0].url;
      var rest := files[1..];
      if url in seen {
        DedupTwice(rest, seen, more);
      } else {
        assert Dedup(files, seen)[1..] == Dedup(rest, seen + {url});
        DedupTwice(rest, seen + {url}, if url in more then more else more + {url});
      }
    }
  }

  lemma DedupLeft(x: seq<File>, y: seq<File>)
    ensures Dedup(Dedup(x, {}) + y, {}) == Dedup(x + y, {})
  {
    DedupConcat(x, y, {});
    DedupConcat(Dedup(x, {}), y, {});
    DedupTwice(x, {}, {});
    DedupUrls(x, {});
    assert {} + Urls(Dedup(x, {})) == {} + Urls(x);
  }

  lemma DedupRight(x: seq<File>, y: seq<File>)
    ensures Dedup(x + Dedup(y, {}), {}) == Dedup(x + y, {})
  {
    DedupConcat(x, y, {});
    DedupConcat(x, Dedup(y, {}), {});
    DedupTwice(y, {}, {} + Urls(x));
  }

  /** Among consistent files, dropping repeats keeps every file. */
  lemma DedupSame(files: seq<File>)
    requires Consistent(files)
    ensures forall f :: f in Dedup(files, {}) <==> f in files
  {
    DedupSubset(files, {});
    DedupUrls(files, {});
    forall f | f in files ensures f in Dedup(files, {}) {
      UrlIn(files, f);
      var g := FileWith(Dedup(files, {}), f.url);
    }
  }

  lemma ConsistentSame(x: seq<File>, y: seq<File>)
    requires forall f | f in x :: f in y
    ensures Consistent(y) ==> Consistent(x)
  {
  }

  lemma ConsistentLeft(x: seq<File>, y: seq<File>)
    ensures Consistent(x) && Consistent(Dedup(x, {}) + y) <==> Consistent(x + y)
  {
    ConsistentSame(x, x + y);
    if Consistent(x) {
      DedupSame(x);
      ConsistentSame(Dedup(x, {}) + y, x + y);
      ConsistentSame(x + y, Dedup(x, {}) + y);
    }
  }

  lemma ConsistentRight(x: seq<File>, y: seq<File>)
    ensures Consistent(y) && Consistent(x + Dedup(y, {})) <==> Consistent(x + y)
  {
    ConsistentSame(y, x + y);
    if Consistent(y) {
      DedupSame(y);
      ConsistentSame(x + Dedup(y, {}), x + y);
      ConsistentSame(x + y, x + Dedup(y, {}));
    }
  }

  ghost function MergeThen(m: Option<Manifest>, c: Manifest): Option<Manifest> {
    if m.None? then None else Merge(m.value, c)
  }

  ghost function MergeInto(a: Manifest, m: Option<Manifest>): Option<Manifest> {
    if m.None? then None else Merge(a, m.value)
  }

  /** No two of the three manifests conflict. */
  ghost predicate NoThreeConflict(a: Manifest, b: Manifest, c: Manifest) {
    && a.version == b.version == c.version
    && Consistent(a.files + b.files + c.files)
    && Agree(a.extras, b.extras) && Agree(b.extras, c.extras) && Agree(a.extras, c.extras)
  }

  ghost function Joined(a: Manifest, b: Manifest, c: Manifest): Manifest {
    Manifest(a.version, Later(a.releaseDate, Later(b.releaseDate, c.releaseDate)),
             Dedup(a.files + b.files + c.files, {}), a.extras + b.extras + c.extras)
  }

  lemma AgreeThree(a: map<string, Scalar>, b: map<string, Scalar>, c: map<string, Scalar>)
    ensures Agree(a, b) && Agree(a + b, c) <==> Agree(a, b) && Agree(b, c) && Agree(a, c)
    ensures Agree(b, c) && Agree(a, b + c) <==> Agree(a, b) && Agree(b, c) && Agree(a, c)
  {
    if Agree(a, b) && Agree(a + b, c) {
      assert forall k | k in a && k in c :: k in a + b && (a + b)[k] == a[k];
      assert forall k | k in b && k in c :: k in a + b && (a + b)[k] == b[k];
    }
    if Agree(b, c) && Agree(a, b + c) {
      assert forall k | k in a && k in c :: k in b + c && (b + c)[k] == c[k];
      assert forall k | k in a && k in b :: k in b + c && (b + c)[k] == b[k];
    }
  }

  lemma LaterThree(a: string, b: string, c: string)
    ensures Later(Later(a, b), c) == Later(a, Later(b, c))
  {
    TextOrder(c, b, a);
    TextOrder(a, b, c);
    TextOrder(b, a, c);
    TextOrder(c, a, b);
    TextOrder(a, c, b);
    TextOrder(b, c, a);
  }

  lemma MergeLeft(a: Manifest, b: Manifest, c: Manifest)
    ensures MergeThen(Merge(a, b), c)
         == if NoThreeConflict(a, b, c) && NoShadow(a.extras, b.extras) && NoShadow(a.extras + b.extras, c.extras)
            then Some(Joined(a, b, c)) else None
  {
    AgreeThree(a.extras, b.extras, c.extras);
    ConsistentLeft(a.files + b.files, c.files);
    DedupLeft(a.files + b.files, c.files);
    LaterThree(a.releaseDate, b.releaseDate, c.releaseDate);
  }

  lemma MergeRight(a: Manifest, b: Manifest, c: Manifest)
    ensures MergeInto(a, Merge(b, c))
         == if NoThreeConflict(a, b, c) && NoShadow(b.extras, c.extras) && NoShadow(a.extras, b.extras + c.extras)
            then Some(Joined(a, b, c)) else None
  {
    AgreeThree(a.extras, b.extras, c.extras);
    assert a.files + (b.files + c.files) == a.files + b.files + c.files;
    ConsistentRight(a.files, b.files + c.files);
    DedupRight(a.files, b.files + c.files);
    assert a.extras + (b.extras + c.extras) == a.extras + b.extras + c.extras;
  }

  lemma AvoidsThree(a: map<string, Scalar>, b: map<string, Scalar>, c: map<string, Scalar>, names: set<string>)
    ensures Avoids(b, c, names) && Avoids(a, b + c, names)
       <==> && Avoids(a, b, names) && Avoids(a + b, c, names)
            && forall k | k in names && k in a && k in c :: k in b
  {
  }

  /** Merging is associative, in definedness and down to the order of the files, exactly when
      two of the manifests conflict, the second or the third alone carries an inherited name,
      or no inherited name that both outer manifests carry is missing from the middle one. */
  lemma Associates(a: Manifest, b: Manifest, c: Manifest)
    ensures MergeThen(Merge(a, b), c) == MergeInto(a, Merge(b, c))
       <==> || !NoThreeConflict(a, b, c)
            || !NoShadow(a.extras, b.extras)
            || !NoShadow(a.extras + b.extras, c.extras)
            || forall k | k in INHERITED && k in a.extras && k in c.extras :: k in b.extras
  {
    MergeLeft(a, b, c);
    MergeRight(a, b, c);
    AvoidsThree(a.extras, b.extras, c.extras, INHERITED);
  }
}
