/** The loops of `parseUpdateManifest` and `serializeUpdateManifest`
    (scripts/lib/update-manifest.ts). */
module ManifestLoops {
  import opened Outcomes
  import opened Text
  import opened UpdateManifest
  import opened ManifestText
  import opened ManifestEvaluation
  import opened ManifestRoundTrip
  import ManifestMeaning

  lemma ReadNext(lines: seq<string>, i: nat)
    requires i < |lines|
    ensures ReadLines(lines[i..]) == [ReadLine(lines[i])] + ReadLines(lines[i + 1..])
  {
    assert lines[i..][1..] == lines[i + 1..];
  }

  lemma ApplyNext(st: State, lines: seq<string>, i: nat, n: nat)
    requires i < |lines|
    ensures ApplyLines(st, ReadLines(lines[i..]), n) ==
            match ApplyLine(st, ReadLine(lines[i]), n)
            case Err(e) => Err(e)
            case Ok(s) => ApplyLines(s, ReadLines(lines[i + 1..]), n + 1)
  {
    ReadNext(lines, i);
    ApplyCons(st, ReadLine(lines[i]), ReadLines(lines[i + 1..]), n);
  }

  method ParseUpdateManifest(raw: string) returns (r: Parsed<Manifest>)
    ensures r == Parse(raw)
    ensures ManifestMeaning.Meant(ReadLines(SplitLines(raw)), r)
  {
    ManifestMeaning.ParsedMeans(raw, ReadLines(SplitLines(raw)));
    var lines := SplitLines(raw);
    var st := ParseLines(lines);
    r := match st case Err(e) => Err(e) case Ok(s) => Finish(s, |lines|);
  }

  method ParseLines(lines: seq<string>) returns (r: Parsed<State>)
    ensures r == ApplyLines(START, ReadLines(lines), 1)
  {
    var st := START;
    ghost var all := ApplyLines(START, ReadLines(lines), 1);
    var index := 0;
    assert lines[0..] == lines;
    while index < |lines|
      invariant index <= |lines|
      invariant all == ApplyLines(st, ReadLines(lines[index..]), index + 1)
    {
      ApplyNext(st, lines, index, index + 1);
      st :- ApplyLine(st, ReadLine(lines[index]), index + 1);
      index := index + 1;
    }
    r := Ok(st);
  }

  /** `sortedKeys` is what `Object.keys(manifest.extras).toSorted()` returns. */
  method SerializeUpdateManifest(m: Manifest, sortedKeys: seq<string>) returns (text: string)
    requires SortedKeys(m.extras.Keys, sortedKeys)
    ensures text == JoinLines(Lines(m, sortedKeys))
    ensures Parse(text) == Ok(m) <==> Printable(m)
  {
    var lines := AppendFiles(HeadLines(m), m.files);
    lines := AppendExtras(lines, m.extras, sortedKeys);
    lines := lines + TailLines(m);
    text := JoinLines(lines);
    SortedRoundTrip(m, sortedKeys);
  }

  lemma SortedRoundTrip(m: Manifest, keys: seq<string>)
    requires SortedKeys(m.extras.Keys, keys)
    ensures Parse(JoinLines(Lines(m, keys))) == Ok(m) <==> Printable(m)
  {
    PrintsSorted(m, keys);
    RoundTrip(m, JoinLines(Lines(m, keys)));
  }

  method AppendFiles(start: seq<string>, files: seq<File>) returns (lines: seq<string>)
    ensures lines == start + FilesLines(files)
  {
    lines := start;
    var i := 0;
    assert files[0..] == files;
    while i < |files|
      invariant i <= |files|
      invariant lines + FilesLines(files[i..]) == start + FilesLines(files)
    {
      FilesLinesNext(files, i);
      lines := lines + FileLines(files[i]);
      i := i + 1;
    }
  }

  method AppendExtras(start: seq<string>, extras: map<string, Scalar>, keys: seq<string>) returns (lines: seq<string>)
    requires forall k | k in keys :: k in extras
    ensures lines == start + ExtraLines(keys, extras)
  {
    lines := start;
    var k := 0;
    assert keys[0..] == keys;
    while k < |keys|
      invariant k <= |keys|
      invariant lines + ExtraLines(keys[k..], extras) == start + ExtraLines(keys, extras)
    {
      ExtraLinesNext(keys, k, extras);
      lines := lines + [ExtraLine(keys[k], extras[keys[k]])];
      k := k + 1;
    }
  }

  lemma PrintsSorted(m: Manifest, keys: seq<string>)
    requires SortedKeys(m.extras.Keys, keys)
    ensures Prints(m, JoinLines(Lines(m, keys)))
  {
  }

  lemma FilesLinesNext(files: seq<File>, i: nat)
    requires i < |files|
    ensures FilesLines(files[i..]) == FileLines(files[i]) + FilesLines(files[i + 1..])
  {
    assert files[i..][1..] == files[i + 1..];
  }

  lemma ExtraLinesNext(keys: seq<string>, i: nat, extras: map<string, Scalar>)
    requires i < |keys| && forall k | k in keys :: k in extras
    ensures ExtraLines(keys[i..], extras)
         == [ExtraLine(keys[i], extras[keys[i]])] + ExtraLines(keys[i + 1..], extras)
  {
    assert keys[i..][1..] == keys[i + 1..];
  }

  // ---------------------------------------------------------------- every set of keys can be sorted

  function Insert(key: string, keys: seq<string>): seq<string> {
    if keys == [] || Before(key, keys[0]) then [key] + keys else [keys[0]] + Insert(key, keys[1..])
  }

  lemma {:induction false} InsertMembers(key: string, keys: seq<string>)
    ensures forall k :: k in Insert(key, keys) <==> k == key || k in keys
  {
    if keys != [] && !Before(key, keys[0]) {
      InsertMembers(key, keys[1..]);
      assert keys == [keys[0]] + keys[1..];
    }
  }

  ghost predicate Ascending(keys: seq<string>) {
    forall i, j | 0 <= i < j < |keys| :: Before(keys[i], keys[j])
  }

  lemma ConsAscending(key: string, keys: seq<string>)
    requires Ascending(keys) && forall k | k in keys :: Before(key, k)
    ensures Ascending([key] + keys)
  {
  }

  lemma {:induction false} InsertAscending(key: string, keys: seq<string>)
    requires key !in keys && Ascending(keys)
    ensures Ascending(Insert(key, keys))
  {
    if keys == [] {
    } else if Before(key, keys[0]) {
      forall k | k in keys ensures Before(key, k) {
        TextOrder(key, keys[0], k);
      }
      ConsAscending(key, keys);
    } else {
      TextOrder(key, keys[0], key);
      InsertAscending(key, keys[1..]);
      InsertMembers(key, keys[1..]);
      ConsAscending(keys[0], Insert(key, keys[1..]));
    }
  }

  /** So every manifest has a printed form. */
  lemma {:induction false} SortedKeysExist(s: set<string>) returns (keys: seq<string>)
    ensures SortedKeys(s, keys)
  {
    if s == {} {
      keys := [];
    } else {
      var key :| key in s;
      var rest := SortedKeysExist(s - {key});
      InsertMembers(key, rest);
      InsertAscending(key, rest);
      keys := Insert(key, rest);
    }
  }

  lemma EveryManifestPrints(m: Manifest)
    ensures exists text :: Prints(m, text)
  {
    var keys := SortedKeysExist(m.extras.Keys);
    assert Prints(m, JoinLines(Lines(m, keys)));
  }
}
