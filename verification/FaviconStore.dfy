/** The store of captured favicons: a cache of forty entries fed one capture at a time
    (apps/web/src/browserFaviconStore.ts, apps/web/src/browserFaviconLogic.ts). */
module FaviconStore {
  import opened Collections
  import opened Outcomes
  import opened Text

  const MAX_ENTRIES: nat := 40
  const MAX_ALIASES: nat := 4
  const MAX_FUTURE_SKEW: real := 300000.0
  const CAPTURED_AT_MAX: real := 8640000000000000.0
  const DATA_URL_MAX_LENGTH: nat := 8192
  const PNG_PREFIX := "data:image/png;base64,"

  datatype Entry = Entry(dataUrl: string, capturedAt: real, aliases: seq<string>)

  /** One property of the `byKey` record, whose properties keep their insertion order. */
  datatype Record = Record(key: string, entry: Entry)

  /** One call of `recordFavicon`, with the clock it reads. */
  datatype Capture = Capture(key: string, dataUrl: string, capturedAt: real, aliases: seq<string>, now: real)

  // ---------------------------------------------------------------- what is accepted

  predicate StorablePayload(s: string) {
    s != "" && |s| % 4 != 1 && (PaddedBy(s, 0) || PaddedBy(s, 1) || PaddedBy(s, 2))
  }

  predicate Storable(dataUrl: string) {
    PNG_PREFIX <= dataUrl && |dataUrl| <= DATA_URL_MAX_LENGTH && StorablePayload(dataUrl[|PNG_PREFIX|..])
  }

  predicate Accepted(c: Capture) {
    && Storable(c.dataUrl)
    && 0.0 <= c.capturedAt <= CAPTURED_AT_MAX
    && c.capturedAt <= c.now + MAX_FUTURE_SKEW
  }

  /** A capture is accepted when its image is a PNG data URL of at most 8192 characters whose
      payload is base64 with at most two padding characters, all at its end, and which no
      single character follows the last group of four; and when it was captured between the
      epoch and the last date there is, and not more than five minutes from now. */
  lemma AcceptedMeans(c: Capture)
    ensures Accepted(c) <==>
              && (exists payload, n ::
                    && c.dataUrl == "data:image/png;base64," + payload
                    && payload != "" && |payload| % 4 != 1 && 0 <= n <= 2 && PaddedBy(payload, n))
              && |c.dataUrl| <= 8192
              && 0.0 <= c.capturedAt <= 8.64e15
              && c.capturedAt - c.now <= 5.0 * 60.0 * 1000.0
  {
    if PNG_PREFIX <= c.dataUrl {
      assert c.dataUrl == PNG_PREFIX + c.dataUrl[|PNG_PREFIX|..];
    }
    forall payload | c.dataUrl == "data:image/png;base64," + payload
      ensures PNG_PREFIX <= c.dataUrl && c.dataUrl[|PNG_PREFIX|..] == payload
    {
    }
  }

  // ---------------------------------------------------------------- one capture

  function Find(byKey: seq<Record>, key: string): (r: Option<Entry>)
    ensures r.Some? ==> Record(key, r.value) in byKey
    ensures r.None? ==> forall x | x in byKey :: x.key != key
  {
    if byKey == [] then None
    else if byKey[0].key == key then Some(byKey[0].entry)
    else Find(byKey[1..], key)
  }

  /** Setting a property: in place when the key is there, last otherwise. */
  function Put(byKey: seq<Record>, key: string, entry: Entry): seq<Record> {
    if byKey == [] then [Record(key, entry)]
    else if byKey[0].key == key then [Record(key, entry)] + byKey[1..]
    else [byKey[0]] + Put(byKey[1..], key, entry)
  }

  function InsertDescending(r: Record, sorted: seq<Record>): seq<Record> {
    if sorted == [] || sorted[0].entry.capturedAt <= r.entry.capturedAt then [r] + sorted
    else [sorted[0]] + InsertDescending(r, sorted[1..])
  }

  /** The stable sort by descending capture time. */
  function SortDescending(byKey: seq<Record>): seq<Record> {
    if byKey == [] then [] else InsertDescending(byKey[0], SortDescending(byKey[1..]))
  }

  function Evict(byKey: seq<Record>): seq<Record> {
    if |byKey| <= MAX_ENTRIES then byKey
    else
      Sorts(byKey);
      SortDescending(byKey)[..MAX_ENTRIES]
  }

  ghost predicate Descending(byKey: seq<Record>) {
    forall i, j | 0 <= i < j < |byKey| :: byKey[i].entry.capturedAt >= byKey[j].entry.capturedAt
  }

  lemma {:induction false} Inserts(r: Record, sorted: seq<Record>)
    ensures |InsertDescending(r, sorted)| == |sorted| + 1
    ensures forall x :: x in InsertDescending(r, sorted) <==> x == r || x in sorted
    ensures Descending(sorted) ==> Descending(InsertDescending(r, sorted))
  {
    if sorted != [] && sorted[0].entry.capturedAt > r.entry.capturedAt {
      Inserts(r, sorted[1..]);
      assert sorted == [sorted[0]] + sorted[1..];
      if Descending(sorted) {
        var rest := InsertDescending(r, sorted[1..]);
        forall x | x in rest ensures sorted[0].entry.capturedAt >= x.entry.capturedAt {}
      }
    }
  }

  lemma {:induction false} Sorts(byKey: seq<Record>)
    ensures |SortDescending(byKey)| == |byKey|
    ensures forall x :: x in SortDescending(byKey) <==> x in byKey
    ensures Descending(SortDescending(byKey))
  {
    if byKey != [] {
      Sorts(byKey[1..]);
      Inserts(byKey[0], SortDescending(byKey[1..]));
      assert byKey == [byKey[0]] + byKey[1..];
    }
  }

  /** The values of a list, each at its first place. */
  function Unique(values: seq<string>, seen: set<string>): seq<string> {
    if values == [] then []
    else if values[0] in seen then Unique(values[1..], seen)
    else [values[0]] + Unique(values[1..], seen + {values[0]})
  }

  function Aliases(existing: Option<Entry>): seq<string> {
    if existing.Some? then existing.value.aliases else []
  }

  predicate Newer(c: Capture, existing: Option<Entry>) {
    existing.Some? ==> c.capturedAt > existing.value.capturedAt
  }

  function NextAliases(existing: Option<Entry>, c: Capture): (r: seq<string>)
    ensures |r| <= MAX_ALIASES
  {
    var all := Unique(if Newer(c, existing) then c.aliases + Aliases(existing) else Aliases(existing) + c.aliases, {});
    if |all| <= MAX_ALIASES then all else all[..MAX_ALIASES]
  }

  function NextEntry(existing: Option<Entry>, c: Capture): Entry {
    if Newer(c, existing) then Entry(c.dataUrl, c.capturedAt, NextAliases(existing, c))
    else existing.value.(aliases := NextAliases(existing, c))
  }

  function RecordCapture(byKey: seq<Record>, c: Capture): seq<Record> {
    if !Accepted(c) then byKey
    else
      var existing := Find(byKey, c.key);
      if !Newer(c, existing) && NextAliases(existing, c) == existing.value.aliases then byKey
      else Evict(Put(byKey, c.key, NextEntry(existing, c)))
  }

  // ---------------------------------------------------------------- aliases

  ghost predicate DistinctStrings(s: seq<string>) {
    forall i, j | 0 <= i < j < |s| :: s[i] != s[j]
  }

  lemma {:induction false} UniqueMeans(values: seq<string>, seen: set<string>)
    ensures DistinctStrings(Unique(values, seen))
    ensures forall v :: v in Unique(values, seen) <==> v in values && v !in seen
    decreases |values|
  {
    if values != [] {
      assert values == [values[0]] + values[1..];
      UniqueMeans(values[1..], seen);
      UniqueMeans(values[1..], seen + {values[0]});
    }
  }

  lemma {:induction false} UniqueOfDistinct(values: seq<string>, rest: seq<string>, seen: set<string>)
    requires DistinctStrings(values) && forall v | v in values :: v !in seen
    ensures values <= Unique(values + rest, seen)
    decreases |values|
  {
    if values != [] {
      assert (values + rest)[1..] == values[1..] + rest;
      assert forall i | 0 < i < |values| :: values[i] != values[0];
      UniqueOfDistinct(values[1..], rest, seen + {values[0]});
      assert values == [values[0]] + values[1..];
    }
  }

  /** The kept aliases are distinct and are among those of the entry and of the capture, all
      of them if four are enough; those of a newer capture, or else those of the entry, come
      first. */
  lemma NextAliasesMean(existing: Option<Entry>, c: Capture)
    ensures var next := NextAliases(existing, c);
            var first := if Newer(c, existing) then c.aliases else Aliases(existing);
            && DistinctStrings(next)
            && (forall v | v in next :: v in c.aliases || v in Aliases(existing))
            && |next| <= 4
            && (|next| < 4 ==> forall v | v in c.aliases || v in Aliases(existing) :: v in next)
            && (DistinctStrings(first) && |first| <= 4 ==> first <= next)
  {
    var first := if Newer(c, existing) then c.aliases else Aliases(existing);
    var rest := if Newer(c, existing) then Aliases(existing) else c.aliases;
    var all := Unique(first + rest, {});
    UniqueMeans(first + rest, {});
    assert forall v :: v in first + rest <==> v in c.aliases || v in Aliases(existing);
    assert NextAliases(existing, c) == if |all| <= MAX_ALIASES then all else all[..MAX_ALIASES];
    if DistinctStrings(first) {
      UniqueOfDistinct(first, rest, {});
      assert first == all[..|first|];
    }
  }

  /** The zustand store; only the field the captures go to. */
  class BrowserFaviconStore {
    var byKey: seq<Record>
    ghost var history: seq<Capture>

    ghost predicate Valid()
      reads this
    {
      byKey == Run(history)
    }

    constructor ()
      ensures Valid() && history == []
    {
      byKey := [];
      history := [];
    }

    method RecordFavicon(key: string, dataUrl: string, capturedAt: real, aliases: seq<string>, now: real)
      requires Valid()
      modifies this
      ensures Valid() && history == old(history) + [Capture(key, dataUrl, capturedAt, aliases, now)]
    {
      var c := Capture(key, dataUrl, capturedAt, aliases, now);
      history := history + [c];
      assert history[..|history| - 1] == old(history);
      if !Accepted(c) {
        return;
      }
      var existing := Find(byKey, key);
      var newer := existing.None? || capturedAt > existing.value.capturedAt;
      var nextAliases := NextAliases(existing, c);
      if !newer && nextAliases == existing.value.aliases {
        return;
      }
      var entry := if newer then Entry(dataUrl, capturedAt, nextAliases)
      else Entry(existing.value.dataUrl, existing.value.capturedAt, nextAliases);
      byKey := Evict(Put(byKey, key, entry));
    }

    /** What the store holds after any calls whose capture times differ across keys. */
    lemma Holds(key: string)
      requires Valid() && DistinctTimes(history)
      ensures Find(byKey, key).Some? <==> Best(history, key).Some? && |Above(history, key)| < 40
      ensures Find(byKey, key).Some? ==> Shown(Find(byKey, key).value) == Best(history, key).value
    {
      StreamingIsBatch(history, key);
    }
  }

  // ---------------------------------------------------------------- the batch

  /** An image and when it was captured. */
  datatype Shot = Shot(dataUrl: string, capturedAt: real)

  function Shown(e: Entry): Shot {
    Shot(e.dataUrl, e.capturedAt)
  }

  function Run(history: seq<Capture>): seq<Record> {
    if history == [] then [] else RecordCapture(Run(history[..|history| - 1]), history[|history| - 1])
  }

  predicate Of(c: Capture, key: string) {
    c.key == key && Accepted(c)
  }

  /** The newest accepted capture of a key, the first of them on a tie. */
  function Best(history: seq<Capture>, key: string): Option<Shot> {
    if history == [] then None
    else
      var best := Best(history[..|history| - 1], key);
      var c := history[|history| - 1];
      if Of(c, key) && (best.None? || c.capturedAt > best.value.capturedAt)
      then Some(Shot(c.dataUrl, c.capturedAt)) else best
  }

  /** The capture at `i` is the newest of its key, and the first as new. */
  ghost predicate IsBest(history: seq<Capture>, key: string, i: nat) {
    && i < |history| && Of(history[i], key)
    && (forall j | 0 <= j < |history| && Of(history[j], key) :: history[j].capturedAt <= history[i].capturedAt)
    && (forall j | 0 <= j < i && Of(history[j], key) :: history[j].capturedAt < history[i].capturedAt)
  }

  lemma {:induction false} BestMeaning(history: seq<Capture>, key: string) returns (at: nat)
    ensures Best(history, key).None? <==> forall i | 0 <= i < |history| :: !Of(history[i], key)
    ensures Best(history, key).Some? ==>
      IsBest(history, key, at) && Best(history, key).value == Shot(history[at].dataUrl, history[at].capturedAt)
  {
    at := 0;
    if history != [] {
      var n := |history| - 1;
      var before := history[..n];
      var c := history[n];
      at := BestMeaning(before, key);
      assert forall i | 0 <= i < n :: before[i] == history[i];
      if Of(c, key) && (Best(before, key).None? || c.capturedAt > Best(before, key).value.capturedAt) {
        at := n;
      }
    }
  }

  /** Captures of different keys have different times. */
  ghost predicate DistinctTimes(history: seq<Capture>) {
    forall i, j | && 0 <= i < |history| && 0 <= j < |history| && history[i].key != history[j].key
                  && Accepted(history[i]) && Accepted(history[j]) ::
      history[i].capturedAt != history[j].capturedAt
  }

  // ---------------------------------------------------------------- records with distinct keys

  ghost predicate DistinctKeys(byKey: seq<Record>) {
    forall i, j | 0 <= i < j < |byKey| :: byKey[i].key != byKey[j].key
  }

  ghost predicate HasKey(byKey: seq<Record>, key: string) {
    exists r :: r in byKey && r.key == key
  }

  lemma {:induction false} Puts(byKey: seq<Record>, key: string, entry: Entry)
    requires DistinctKeys(byKey)
    ensures var next := Put(byKey, key, entry);
            && DistinctKeys(next)
            && |next| == |byKey| + (if Find(byKey, key).Some? then 0 else 1)
            && (forall r :: r in next <==> r == Record(key, entry) || (r in byKey && r.key != key))
  {
    if byKey != [] {
      var rest := byKey[1..];
      assert byKey == [byKey[0]] + rest;
      if byKey[0].key != key {
        Puts(rest, key, entry);
        forall r | r in Put(rest, key, entry) ensures r.key != byKey[0].key {}
      }
    }
  }

  lemma {:induction false} SortsDistinct(byKey: seq<Record>)
    requires DistinctKeys(byKey)
    ensures DistinctKeys(SortDescending(byKey))
  {
    if byKey != [] {
      SortsDistinct(byKey[1..]);
      Sorts(byKey[1..]);
      InsertsDistinct(byKey[0], SortDescending(byKey[1..]));
    }
  }

  lemma {:induction false} InsertsDistinct(r: Record, sorted: seq<Record>)
    requires DistinctKeys(sorted) && forall x | x in sorted :: x.key != r.key
    ensures DistinctKeys(InsertDescending(r, sorted))
  {
    if sorted != [] && sorted[0].entry.capturedAt > r.entry.capturedAt {
      InsertsDistinct(r, sorted[1..]);
      Inserts(r, sorted[1..]);
      forall x | x in InsertDescending(r, sorted[1..]) ensures x.key != sorted[0].key {}
    }
  }

  /** Evicting keeps forty records, or all if there are fewer, none older than one dropped. */
  lemma EvictKeepsNewest(byKey: seq<Record>)
    ensures var kept := Evict(byKey);
            && |kept| == (if |byKey| < MAX_ENTRIES then |byKey| else MAX_ENTRIES)
            && (forall r | r in kept :: r in byKey)
            && (forall r, d | r in kept && d in byKey && d !in kept :: r.entry.capturedAt >= d.entry.capturedAt)
  {
    if |byKey| > MAX_ENTRIES {
      var sorted := SortDescending(byKey);
      Sorts(byKey);
      forall k | 0 <= k < MAX_ENTRIES ensures sorted[k] in Evict(byKey) {
        assert sorted[..MAX_ENTRIES][k] == sorted[k];
      }
      forall r, d | r in Evict(byKey) && d in byKey && d !in Evict(byKey)
        ensures r.entry.capturedAt >= d.entry.capturedAt
      {
        assert d in sorted;
        var i :| 0 <= i < MAX_ENTRIES && sorted[i] == r;
        var j :| 0 <= j < |sorted| && sorted[j] == d;
      }
    }
  }

  /** Evicting from one record too many drops an oldest one. */
  lemma EvictsOldest(byKey: seq<Record>) returns (dropped: Record)
    requires DistinctKeys(byKey) && |byKey| == MAX_ENTRIES + 1
    ensures var kept := Evict(byKey);
            && |kept| == MAX_ENTRIES && DistinctKeys(kept)
            && dropped in byKey
            && (forall r :: r in kept <==> r in byKey && r != dropped)
            && (forall r | r in kept :: r.entry.capturedAt >= dropped.entry.capturedAt)
  {
    var sorted := SortDescending(byKey);
    Sorts(byKey);
    SortsDistinct(byKey);
    dropped := sorted[MAX_ENTRIES];
    assert sorted == sorted[..MAX_ENTRIES] + [dropped];
    assert dropped in sorted;
  }

  // ---------------------------------------------------------------- the cache tracks the batch

  /** The store holds the newest capture of each of its keys, and forgets only keys that
      forty newer ones push out. */
  ghost predicate Tracks(history: seq<Capture>, byKey: seq<Record>) {
    && DistinctKeys(byKey) && |byKey| <= MAX_ENTRIES
    && (forall r | r in byKey :: Best(history, r.key) == Some(Shown(r.entry)))
    && (forall key | Best(history, key).Some? && !HasKey(byKey, key) :: PushedOut(history, byKey, key))
  }

  ghost predicate PushedOut(history: seq<Capture>, byKey: seq<Record>, key: string) {
    && Best(history, key).Some?
    && |byKey| == MAX_ENTRIES
    && forall r | r in byKey :: r.entry.capturedAt > Best(history, key).value.capturedAt
  }

  lemma BestNext(history: seq<Capture>, c: Capture, key: string)
    ensures Best(history + [c], key)
         == if Of(c, key) && (Best(history, key).None? || c.capturedAt > Best(history, key).value.capturedAt)
            then Some(Shot(c.dataUrl, c.capturedAt)) else Best(history, key)
  {
    assert (history + [c])[..|history|] == history;
  }

  /** One call: a capture that is not accepted changes nothing; an accepted one leaves every
      other key's entry as it is or evicts it, and its own key, unless it is evicted, has the
      newer image and the aliases of both. */
  lemma OneCapture(byKey: seq<Record>, c: Capture)
    requires DistinctKeys(byKey)
    ensures var next := RecordCapture(byKey, c);
            && (!Accepted(c) ==> next == byKey)
            && (Accepted(c) ==> forall r | r in next ::
                  if r.key == c.key then r.entry == NextEntry(Find(byKey, c.key), c) else r in byKey)
            && (Accepted(c) && |byKey| < 40 ==>
                  forall r | r in byKey && r.key != c.key :: r in next)
            && (Accepted(c) && |byKey| < 40 ==> Record(c.key, NextEntry(Find(byKey, c.key), c)) in next)
  {
    if Accepted(c) {
      var existing := Find(byKey, c.key);
      Puts(byKey, c.key, NextEntry(existing, c));
      EvictKeepsNewest(Put(byKey, c.key, NextEntry(existing, c)));
      if existing.Some? {
        OneOfKey(byKey, c.key, existing.value);
      }
    }
  }

  lemma OneOfKey(byKey: seq<Record>, key: string, entry: Entry)
    requires DistinctKeys(byKey) && Record(key, entry) in byKey
    ensures forall r | r in byKey && r.key == key :: r == Record(key, entry)
  {
  }

  /** The entry of a key after an accepted capture: the newer of the two images. */
  lemma NextEntryMeans(existing: Option<Entry>, c: Capture)
    ensures var next := NextEntry(existing, c);
            && (Shown(next) == Shot(c.dataUrl, c.capturedAt) || (existing.Some? && Shown(next) == Shown(existing.value)))
            && next.capturedAt >= c.capturedAt
            && (existing.Some? ==> next.capturedAt >= existing.value.capturedAt)
            && (existing.Some? && existing.value.capturedAt == c.capturedAt ==> Shown(next) == Shown(existing.value))
            && next.aliases == NextAliases(existing, c)
  {
  }

  lemma FindHas(byKey: seq<Record>, key: string)
    ensures Find(byKey, key).Some? <==> HasKey(byKey, key)
  {
  }

  lemma StillMissing(byKey: seq<Record>, next: seq<Record>, key: string)
    requires !HasKey(next, key) && forall r | r in byKey && r.key == key :: r in next
    ensures !HasKey(byKey, key)
  {
  }

  /** A capture of a key the store has. */
  lemma KnownKey(history: seq<Capture>, byKey: seq<Record>, c: Capture)
    requires Tracks(history, byKey) && Accepted(c) && Find(byKey, c.key).Some?
    ensures Tracks(history + [c], RecordCapture(byKey, c))
  {
    var existing := Find(byKey, c.key).value;
    var entry := NextEntry(Some(existing), c);
    var next := Put(byKey, c.key, entry);
    Puts(byKey, c.key, entry);
    assert Record(c.key, existing) in byKey;
    BestNext(history, c, c.key);
    KnownKeyStill(history, byKey, c, next, entry);
    if RecordCapture(byKey, c) == byKey {
      assert entry == existing;
      KnownKeyStill(history, byKey, c, byKey, entry);
    }
  }

  lemma KnownKeyStill(history: seq<Capture>, byKey: seq<Record>, c: Capture, next: seq<Record>, entry: Entry)
    requires Tracks(history, byKey) && Accepted(c) && Find(byKey, c.key).Some?
    requires DistinctKeys(next) && |next| == |byKey|
    requires forall r :: r in next <==> r == Record(c.key, entry) || (r in byKey && r.key != c.key)
    requires entry.capturedAt >= Find(byKey, c.key).value.capturedAt
    requires Best(history + [c], c.key) == Some(Shown(entry))
    ensures Tracks(history + [c], next)
  {
    var after := history + [c];
    forall r | r in next ensures Best(after, r.key) == Some(Shown(r.entry)) {
      BestNext(history, c, r.key);
    }
    forall key | Best(after, key).Some? && !HasKey(next, key) ensures PushedOut(after, next, key) {
      OutsideKnown(history, byKey, c, next, entry, key);
    }
  }

  lemma OutsideKnown(history: seq<Capture>, byKey: seq<Record>, c: Capture, next: seq<Record>, entry: Entry, key: string)
    requires Tracks(history, byKey) && Find(byKey, c.key).Some? && |next| == |byKey|
    requires forall r :: r in next <==> r == Record(c.key, entry) || (r in byKey && r.key != c.key)
    requires entry.capturedAt >= Find(byKey, c.key).value.capturedAt
    requires Best(history + [c], key).Some? && !HasKey(next, key)
    ensures PushedOut(history + [c], next, key)
  {
    assert Record(c.key, entry) in next;
    BestNext(history, c, key);
    StillMissing(byKey, next, key);
    assert PushedOut(history, byKey, key);
    assert Record(c.key, Find(byKey, c.key).value) in byKey;
  }

  /** A capture of a key the store does not have, with room for it. */
  lemma NewKey(history: seq<Capture>, byKey: seq<Record>, c: Capture)
    requires Tracks(history, byKey) && Accepted(c) && Find(byKey, c.key).None? && |byKey| < MAX_ENTRIES
    ensures Tracks(history + [c], RecordCapture(byKey, c))
  {
    var after := history + [c];
    var entry := NextEntry(None, c);
    var next := Put(byKey, c.key, entry);
    Puts(byKey, c.key, entry);
    FindHas(byKey, c.key);
    assert Best(history, c.key).None?;
    BestNext(history, c, c.key);
    forall r | r in next ensures Best(after, r.key) == Some(Shown(r.entry)) {
      BestNext(history, c, r.key);
    }
    forall key | Best(after, key).Some? ensures HasKey(next, key) {
      BestNext(history, c, key);
      RoomForAll(history, byKey, next, Record(c.key, entry), key);
    }
  }

  /** A store that is not full has every captured key. */
  lemma RoomForAll(history: seq<Capture>, byKey: seq<Record>, next: seq<Record>, added: Record, key: string)
    requires Tracks(history, byKey) && |byKey| < MAX_ENTRIES
    requires added in next && forall r | r in byKey && r.key != added.key :: r in next
    requires key == added.key || Best(history, key).Some?
    ensures HasKey(next, key)
  {
    if key != added.key {
      var r :| r in byKey && r.key == key;
      assert r in next;
    }
  }

  lemma TimesDiffer(history: seq<Capture>, byKey: seq<Record>, c: Capture, r: Record)
    requires Tracks(history, byKey) && Accepted(c) && DistinctTimes(history + [c])
    requires r in byKey && r.key != c.key
    ensures r.entry.capturedAt != c.capturedAt
  {
    var i := BestMeaning(history, r.key);
    assert (history + [c])[i] == history[i] && (history + [c])[|history|] == c;
  }

  lemma RecordTimesDiffer(history: seq<Capture>, byKey: seq<Record>, r: Record, x: Record)
    requires Tracks(history, byKey) && DistinctTimes(history)
    requires r in byKey && x in byKey && r.key != x.key
    ensures r.entry.capturedAt != x.entry.capturedAt
  {
    var i := BestMeaning(history, r.key);
    var j := BestMeaning(history, x.key);
    assert Of(history[i], r.key) && Of(history[j], x.key);
  }

  /** A capture of a key the store does not have, when the store is full: the oldest of the
      forty-one goes. An older capture of a forgotten key is itself the one to go. */
  lemma FullStore(history: seq<Capture>, byKey: seq<Record>, c: Capture)
    requires Tracks(history, byKey) && Accepted(c) && DistinctTimes(history + [c])
    requires Find(byKey, c.key).None? && |byKey| == MAX_ENTRIES
    ensures Tracks(history + [c], RecordCapture(byKey, c))
  {
    var entry := NextEntry(None, c);
    var added := Record(c.key, entry);
    var all := Put(byKey, c.key, entry);
    Puts(byKey, c.key, entry);
    FindHas(byKey, c.key);
    var dropped := EvictsOldest(all);
    if dropped == added {
      BouncesOff(history, byKey, c, Evict(all), added);
    } else {
      PushesOut(history, byKey, c, Evict(all), added, dropped);
    }
  }

  lemma BouncesOff(history: seq<Capture>, byKey: seq<Record>, c: Capture, kept: seq<Record>, added: Record)
    requires Tracks(history, byKey) && Accepted(c) && DistinctTimes(history + [c])
    requires !HasKey(byKey, c.key) && |byKey| == |kept| == MAX_ENTRIES
    requires added.key == c.key && Shown(added.entry) == Shot(c.dataUrl, c.capturedAt)
    requires DistinctKeys(kept) && forall r :: r in kept <==> r in byKey
    requires forall r | r in kept :: r.entry.capturedAt >= added.entry.capturedAt
    ensures Tracks(history + [c], kept)
  {
    var after := history + [c];
    forall r | r in kept ensures Best(after, r.key) == Some(Shown(r.entry)) {
      BestNext(history, c, r.key);
    }
    forall key | Best(after, key).Some? && !HasKey(kept, key) ensures PushedOut(after, kept, key) {
      BestNext(history, c, key);
      assert !HasKey(byKey, key);
      forall r | r in kept ensures r.entry.capturedAt > Best(after, key).value.capturedAt {
        TimesDiffer(history, byKey, c, r);
        assert Best(history, key).Some? ==> PushedOut(history, byKey, key);
      }
    }
  }

  lemma PushesOut(history: seq<Capture>, byKey: seq<Record>, c: Capture, kept: seq<Record>, added: Record, dropped: Record)
    requires Tracks(history, byKey) && Accepted(c) && DistinctTimes(history + [c])
    requires !HasKey(byKey, c.key) && |byKey| == |kept| == MAX_ENTRIES
    requires added.key == c.key && Shown(added.entry) == Shot(c.dataUrl, c.capturedAt)
    requires dropped in byKey
    requires DistinctKeys(kept) && forall r :: r in kept <==> (r == added || r in byKey) && r != dropped
    requires forall r | r in kept :: r.entry.capturedAt >= dropped.entry.capturedAt
    ensures Tracks(history + [c], kept)
  {
    var after := history + [c];
    TimesDiffer(history, byKey, c, dropped);
    assert added in kept;
    assert forall i, j | && 0 <= i < |history| && 0 <= j < |history| :: after[i] == history[i] && after[j] == history[j];
    assert DistinctTimes(history);
    forall r | r in kept ensures Best(after, r.key) == Some(Shown(r.entry)) {
      BestNext(history, c, r.key);
      assert Best(history, c.key).Some? ==> PushedOut(history, byKey, c.key);
    }
    forall key | Best(after, key).Some? && !HasKey(kept, key) ensures PushedOut(after, kept, key) {
      BestNext(history, c, key);
      forall r | r in kept ensures r.entry.capturedAt > Best(after, key).value.capturedAt {
        if key == dropped.key {
          assert dropped.key != r.key;
          if r != added {
            RecordTimesDiffer(history, byKey, r, dropped);
          }
        } else {
          StillMissing(byKey, kept, key);
          assert PushedOut(history, byKey, key);
        }
      }
    }
  }

  lemma Ignored(history: seq<Capture>, byKey: seq<Record>, c: Capture)
    requires Tracks(history, byKey) && !Accepted(c)
    ensures Tracks(history + [c], byKey)
  {
    forall key ensures Best(history + [c], key) == Best(history, key) {
      BestNext(history, c, key);
    }
    forall key | Best(history + [c], key).Some? && !HasKey(byKey, key) ensures PushedOut(history + [c], byKey, key) {
      assert PushedOut(history, byKey, key);
    }
  }

  lemma {:induction false} AlwaysTracks(history: seq<Capture>)
    requires DistinctTimes(history)
    ensures Tracks(history, Run(history))
  {
    if history != [] {
      var n := |history| - 1;
      var before := history[..n];
      var c := history[n];
      assert history == before + [c];
      assert DistinctTimes(before);
      AlwaysTracks(before);
      var byKey := Run(before);
      if !Accepted(c) {
        Ignored(before, byKey, c);
      } else if Find(byKey, c.key).Some? {
        KnownKey(before, byKey, c);
      } else if |byKey| < MAX_ENTRIES {
        NewKey(before, byKey, c);
      } else {
        FullStore(before, byKey, c);
      }
    }
  }

  // ---------------------------------------------------------------- streaming is batch

  function Keys(byKey: seq<Record>): set<string> {
    if byKey == [] then {} else {byKey[0].key} + Keys(byKey[1..])
  }

  lemma {:induction false} KeysMembers(byKey: seq<Record>)
    ensures forall key :: key in Keys(byKey) <==> HasKey(byKey, key)
  {
    if byKey != [] {
      var rest := byKey[1..];
      KeysMembers(rest);
      forall key ensures HasKey(byKey, key) <==> key == byKey[0].key || HasKey(rest, key) {
        HasKeyStep(byKey, key);
      }
    }
  }

  lemma HasKeyStep(byKey: seq<Record>, key: string)
    requires byKey != []
    ensures HasKey(byKey, key) <==> byKey[0].key == key || HasKey(byKey[1..], key)
  {
    assert forall r :: r in byKey <==> r == byKey[0] || r in byKey[1..];
  }

  lemma {:induction false} KeysSize(byKey: seq<Record>)
    requires DistinctKeys(byKey)
    ensures |Keys(byKey)| == |byKey|
  {
    if byKey != [] {
      KeysSize(byKey[1..]);
      KeysMembers(byKey[1..]);
      assert !HasKey(byKey[1..], byKey[0].key);
    }
  }

  function KeysOf(history: seq<Capture>): set<string> {
    set i | 0 <= i < |history| :: history[i].key
  }

  /** The keys whose newest capture is newer than that of `key`. */
  ghost function Above(history: seq<Capture>, key: string): set<string> {
    set k | k in KeysOf(history) && Best(history, k).Some? && Best(history, key).Some?
            && Best(history, k).value.capturedAt > Best(history, key).value.capturedAt
  }

  /** After any calls whose capture times differ across keys, the store holds exactly the
      captured keys with fewer than forty newer ones, each with its newest capture: what
      sorting everything once and keeping forty would give, although the store forgets. */
  lemma StreamingIsBatch(history: seq<Capture>, key: string)
    requires DistinctTimes(history)
    ensures var found := Find(Run(history), key);
            && (found.Some? <==> Best(history, key).Some? && |Above(history, key)| < 40)
            && (found.Some? ==> Shown(found.value) == Best(history, key).value)
  {
    var byKey := Run(history);
    AlwaysTracks(history);
    FindHas(byKey, key);
    if Find(byKey, key).Some? {
      AboveInside(history, byKey, key);
    } else if Best(history, key).Some? {
      AboveOutside(history, byKey, key);
    }
  }

  lemma AboveInside(history: seq<Capture>, byKey: seq<Record>, key: string)
    requires Tracks(history, byKey) && HasKey(byKey, key)
    ensures Best(history, key).Some? && |Above(history, key)| < MAX_ENTRIES
  {
    KeysMembers(byKey);
    KeysSize(byKey);
    var mine :| mine in byKey && mine.key == key;
    forall k | k in Above(history, key) ensures k in Keys(byKey) - {key} {
      assert !HasKey(byKey, k) ==> PushedOut(history, byKey, k);
    }
    SubsetCount(Above(history, key), Keys(byKey) - {key});
  }

  lemma AboveOutside(history: seq<Capture>, byKey: seq<Record>, key: string)
    requires Tracks(history, byKey) && !HasKey(byKey, key) && Best(history, key).Some?
    ensures |Above(history, key)| >= MAX_ENTRIES
  {
    KeysMembers(byKey);
    KeysSize(byKey);
    assert PushedOut(history, byKey, key);
    forall k | k in Keys(byKey) ensures k in Above(history, key) {
      var r :| r in byKey && r.key == k;
      var i := BestMeaning(history, k);
      assert history[i].key == k;
    }
    SubsetCount(Keys(byKey), Above(history, key));
  }
}
