/** Reading persisted favicons back (apps/web/src/browserFaviconLogic.ts:
    `migratePersistedBrowserFaviconState`). Normalising a key and recognising an alias are
    the parameters `keyOf` and `aliasOf`. */
module FaviconMigration {
  import opened Collections
  import opened Outcomes
  import opened FaviconStore

  /** One property of the persisted record; its value may not have the shape of an entry. */
  datatype Persisted = Persisted(key: string, value: Option<Entry>)

  type Normalizer = string -> Option<string>

  /** The aliases that are recognised, in their normal form. */
  function Recognized(aliasOf: Normalizer, aliases: seq<string>): seq<string> {
    Pick(aliasOf, aliases)
  }

  function Capped(aliases: seq<string>): seq<string> {
    if |aliases| <= MAX_ALIASES then aliases else aliases[..MAX_ALIASES]
  }

  /** The capture a persisted property amounts to, if it is accepted. */
  function CaptureOf(keyOf: Normalizer, aliasOf: Normalizer, now: real, p: Persisted): Option<Capture> {
    var key := keyOf(p.key);
    if key.None? || p.value.None? then None
    else
      var e := p.value.value;
      var c := Capture(key.value, e.dataUrl, e.capturedAt, Capped(Unique(Recognized(aliasOf, e.aliases), {})), now);
      if Accepted(c) then Some(c) else None
  }

  /** The accepted captures, in the order of the properties. */
  function Captures(keyOf: Normalizer, aliasOf: Normalizer, now: real, ps: seq<Persisted>): seq<Capture> {
    if ps == [] then []
    else
      var before := Captures(keyOf, aliasOf, now, ps[..|ps| - 1]);
      var c := CaptureOf(keyOf, aliasOf, now, ps[|ps| - 1]);
      if c.Some? then before + [c.value] else before
  }

  // ---------------------------------------------------------------- what a property is read as

  function Reader(keyOf: Normalizer, aliasOf: Normalizer, now: real): Persisted -> Option<Capture> {
    (p: Persisted) => CaptureOf(keyOf, aliasOf, now, p)
  }

  /** The properties that are accepted are read in their order. */
  lemma {:induction false} CapturesMean(keyOf: Normalizer, aliasOf: Normalizer, now: real, ps: seq<Persisted>)
    returns (at: seq<nat>)
    ensures Selected(Reader(keyOf, aliasOf, now), ps, Captures(keyOf, aliasOf, now, ps), at)
  {
    at := [];
    if ps != [] {
      var n := |ps| - 1;
      at := CapturesMean(keyOf, aliasOf, now, ps[..n]);
      SelectedNext(Reader(keyOf, aliasOf, now), ps, Captures(keyOf, aliasOf, now, ps[..n]), at);
      if CaptureOf(keyOf, aliasOf, now, ps[n]).Some? {
        at := at + [n];
      }
    }
  }

  ghost predicate RecognizedIn(aliasOf: Normalizer, aliases: seq<string>, alias: string) {
    exists a :: a in aliases && aliasOf(a) == Some(alias)
  }

  lemma RecognizedMean(aliasOf: Normalizer, aliases: seq<string>)
    ensures forall alias :: alias in Recognized(aliasOf, aliases) <==> RecognizedIn(aliasOf, aliases, alias)
  {
    var at := PickMeans(aliasOf, aliases);
    var picked := Recognized(aliasOf, aliases);
    forall alias | alias in picked ensures RecognizedIn(aliasOf, aliases, alias) {
      var i :| 0 <= i < |picked| && picked[i] == alias;
      assert aliases[at[i]] in aliases;
    }
    forall alias | RecognizedIn(aliasOf, aliases, alias) ensures alias in picked {
      var a :| a in aliases && aliasOf(a) == Some(alias);
      var k: nat :| k < |aliases| && aliases[k] == a;
      assert k in at;
      var i :| 0 <= i < |at| && at[i] == k;
    }
  }

  /** A property is read as a capture exactly when it has the shape of an entry, its key has
      a normal form, and image and time are acceptable; it is filed under the normal form,
      with at most four distinct recognised aliases, all of them if four are enough. */
  lemma CaptureRead(keyOf: Normalizer, aliasOf: Normalizer, now: real, p: Persisted)
    ensures var read := CaptureOf(keyOf, aliasOf, now, p);
            && (read.Some? <==> keyOf(p.key).Some? && p.value.Some?
                                && Accepted(Capture("", p.value.value.dataUrl, p.value.value.capturedAt, [], now)))
            && (read.Some? ==>
                  var c := read.value;
                  && keyOf(p.key) == Some(c.key) && c.now == now
                  && c.dataUrl == p.value.value.dataUrl && c.capturedAt == p.value.value.capturedAt
                  && DistinctStrings(c.aliases) && |c.aliases| <= 4
                  && (forall a | a in c.aliases :: RecognizedIn(aliasOf, p.value.value.aliases, a))
                  && (|c.aliases| < 4 ==> forall a | RecognizedIn(aliasOf, p.value.value.aliases, a) :: a in c.aliases))
  {
    if p.value.Some? {
      var aliases := Recognized(aliasOf, p.value.value.aliases);
      RecognizedMean(aliasOf, p.value.value.aliases);
      UniqueMeans(aliases, {});
    }
  }

  /** Where a record of the read-back store comes from. */
  ghost predicate ReadFrom(keyOf: Normalizer, p: Persisted, r: Record) {
    && keyOf(p.key) == Some(r.key) && p.value.Some?
    && Shot(p.value.value.dataUrl, p.value.value.capturedAt) == Shown(r.entry)
  }

  /** Every record read back is that of a persisted property, under the property's normal key. */
  lemma ReadsOnlyPersisted(keyOf: Normalizer, aliasOf: Normalizer, now: real, ps: seq<Persisted>, r: Record)
    requires r in Evict(MergeAll(Captures(keyOf, aliasOf, now, ps)))
    ensures exists p :: p in ps && ReadFrom(keyOf, p, r)
  {
    var captures := Captures(keyOf, aliasOf, now, ps);
    var at := CapturesMean(keyOf, aliasOf, now, ps);
    AllAccepted(keyOf, aliasOf, now, ps, captures, at);
    EvictKeepsNewest(MergeAll(captures));
    MergeHoldsBest(captures);
    FindDistinct(MergeAll(captures), r);
    var i := BestMeaning(captures, r.key);
    CaptureRead(keyOf, aliasOf, now, ps[at[i]]);
    assert ps[at[i]] in ps;
  }

  lemma AllAccepted(keyOf: Normalizer, aliasOf: Normalizer, now: real, ps: seq<Persisted>,
                    captures: seq<Capture>, at: seq<nat>)
    requires Selected(Reader(keyOf, aliasOf, now), ps, captures, at)
    ensures forall c | c in captures :: Accepted(c)
  {
    forall c | c in captures ensures Accepted(c) {
      var i :| 0 <= i < |captures| && captures[i] == c;
      CaptureRead(keyOf, aliasOf, now, ps[at[i]]);
    }
  }

  lemma {:induction false} FindDistinct(byKey: seq<Record>, r: Record)
    requires r in byKey && DistinctKeys(byKey)
    ensures Find(byKey, r.key) == Some(r.entry)
  {
    if byKey[0] != r {
      assert r in byKey[1..];
      FindDistinct(byKey[1..], r);
    }
  }

  /** Merging without evicting. */
  function MergeAll(captures: seq<Capture>): seq<Record> {
    if captures == [] then []
    else
      var before := MergeAll(captures[..|captures| - 1]);
      var c := captures[|captures| - 1];
      Put(before, c.key, NextEntry(Find(before, c.key), c))
  }

  method MigratePersistedState(keyOf: Normalizer, aliasOf: Normalizer, now: real, raw: seq<Persisted>)
    returns (byKey: seq<Record>)
    ensures byKey == Evict(MergeAll(Captures(keyOf, aliasOf, now, raw)))
  {
    byKey := [];
    var i := 0;
    while i < |raw|
      invariant i <= |raw|
      invariant byKey == MergeAll(Captures(keyOf, aliasOf, now, raw[..i]))
    {
      assert raw[..i + 1][..i] == raw[..i];
      var c := CaptureOf(keyOf, aliasOf, now, raw[i]);
      i := i + 1;
      if c.None? {
        continue;
      }
      ghost var before := Captures(keyOf, aliasOf, now, raw[..i - 1]);
      assert (before + [c.value])[..|before|] == before;
      var existing := Find(byKey, c.value.key);
      byKey := Put(byKey, c.value.key, NextEntry(existing, c.value));
    }
    assert raw[..i] == raw;
    byKey := Evict(byKey);
  }

  // ---------------------------------------------------------------- each key's newest capture

  ghost predicate HoldsBest(captures: seq<Capture>, byKey: seq<Record>) {
    && DistinctKeys(byKey)
    && forall key ::
         && (Find(byKey, key).Some? <==> Best(captures, key).Some?)
         && (Find(byKey, key).Some? ==> Shown(Find(byKey, key).value) == Best(captures, key).value)
  }

  lemma {:induction false} FindPut(byKey: seq<Record>, key: string, entry: Entry, other: string)
    ensures Find(Put(byKey, key, entry), other) == if other == key then Some(entry) else Find(byKey, other)
  {
    if byKey != [] && byKey[0].key != key {
      FindPut(byKey[1..], key, entry, other);
    }
  }

  /** Before eviction the merged state holds exactly the newest accepted capture of each key. */
  lemma {:induction false} MergeHoldsBest(captures: seq<Capture>)
    requires forall c | c in captures :: Accepted(c)
    ensures HoldsBest(captures, MergeAll(captures))
  {
    if captures != [] {
      var n := |captures| - 1;
      var before := captures[..n];
      var c := captures[n];
      assert forall x | x in before :: x in captures;
      MergeHoldsBest(before);
      var byKey := MergeAll(before);
      var entry := NextEntry(Find(byKey, c.key), c);
      Puts(byKey, c.key, entry);
      assert c in captures && captures == before + [c];
      forall key
        ensures Find(MergeAll(captures), key).Some? <==> Best(captures, key).Some?
        ensures Find(MergeAll(captures), key).Some? ==> Shown(Find(MergeAll(captures), key).value) == Best(captures, key).value
      {
        FindPut(byKey, c.key, entry, key);
        BestNext(before, c, key);
      }
    }
  }

  // ---------------------------------------------------------------- what the store persists is read back

  /** What the store keeps is in a form that is read back as it is. */
  ghost predicate Persistable(byKey: seq<Record>, now: real) {
    && DistinctKeys(byKey) && |byKey| <= MAX_ENTRIES
    && forall r | r in byKey ::
         && Accepted(Capture(r.key, r.entry.dataUrl, r.entry.capturedAt, [], now))
         && DistinctStrings(r.entry.aliases) && |r.entry.aliases| <= MAX_ALIASES
  }

  ghost predicate NoLaterThan(history: seq<Capture>, now: real) {
    forall i | 0 <= i < |history| :: history[i].now <= now
  }

  lemma EvictPersistable(byKey: seq<Record>, now: real)
    requires |byKey| <= MAX_ENTRIES + 1 && DistinctKeys(byKey)
    requires forall r | r in byKey ::
               && Accepted(Capture(r.key, r.entry.dataUrl, r.entry.capturedAt, [], now))
               && DistinctStrings(r.entry.aliases) && |r.entry.aliases| <= MAX_ALIASES
    ensures Persistable(Evict(byKey), now)
  {
    if |byKey| == MAX_ENTRIES + 1 {
      var _ := EvictsOldest(byKey);
    }
  }

  lemma {:induction false} RunPersistable(history: seq<Capture>, now: real)
    requires NoLaterThan(history, now)
    ensures Persistable(Run(history), now)
  {
    if history != [] {
      var n := |history| - 1;
      var c := history[n];
      assert history[..n] == history[..n] && forall i | 0 <= i < n :: history[..n][i] == history[i];
      RunPersistable(history[..n], now);
      var byKey := Run(history[..n]);
      if Accepted(c) {
        var existing := Find(byKey, c.key);
        NextAliasesMean(existing, c);
        Puts(byKey, c.key, NextEntry(existing, c));
        EvictPersistable(Put(byKey, c.key, NextEntry(existing, c)), now);
      }
    }
  }

  function Persist(byKey: seq<Record>): (r: seq<Persisted>)
    ensures |r| == |byKey| && forall i | 0 <= i < |r| :: r[i] == Persisted(byKey[i].key, Some(byKey[i].entry))
  {
    seq(|byKey|, i requires 0 <= i < |byKey| => Persisted(byKey[i].key, Some(byKey[i].entry)))
  }

  lemma {:induction false} RecognizedAll(aliasOf: Normalizer, aliases: seq<string>)
    requires forall a | a in aliases :: aliasOf(a) == Some(a)
    ensures Recognized(aliasOf, aliases) == aliases
  {
    if aliases != [] {
      RecognizedAll(aliasOf, aliases[1..]);
    }
  }

  lemma UniqueDistinct(values: seq<string>)
    requires DistinctStrings(values)
    ensures Unique(values, {}) == values
  {
    UniqueOfDistinct(values, [], {});
    assert values + [] == values;
    UniqueLength(values, {});
  }

  lemma {:induction false} UniqueLength(values: seq<string>, seen: set<string>)
    ensures |Unique(values, seen)| <= |values|
    decreases |values|
  {
    if values != [] {
      UniqueLength(values[1..], seen);
      UniqueLength(values[1..], seen + {values[0]});
    }
  }

  /** The capture a record of the store is read back as. */
  lemma CaptureBack(keyOf: Normalizer, aliasOf: Normalizer, now: real, r: Record)
    requires Accepted(Capture(r.key, r.entry.dataUrl, r.entry.capturedAt, [], now))
    requires DistinctStrings(r.entry.aliases) && |r.entry.aliases| <= MAX_ALIASES
    requires keyOf(r.key) == Some(r.key) && forall a | a in r.entry.aliases :: aliasOf(a) == Some(a)
    ensures var c := Capture(r.key, r.entry.dataUrl, r.entry.capturedAt, r.entry.aliases, now);
            && CaptureOf(keyOf, aliasOf, now, Persisted(r.key, Some(r.entry))) == Some(c)
            && NextEntry(None, c) == r.entry
  {
    RecognizedAll(aliasOf, r.entry.aliases);
    UniqueDistinct(r.entry.aliases);
    assert r.entry.aliases + [] == r.entry.aliases;
  }

  lemma {:induction false} PutNew(byKey: seq<Record>, r: Record)
    requires Find(byKey, r.key).None?
    ensures Put(byKey, r.key, r.entry) == byKey + [r]
  {
    if byKey != [] {
      PutNew(byKey[1..], r);
    }
  }

  /** The captures the records of the store are read back as. */
  function Recaptured(byKey: seq<Record>, now: real): (r: seq<Capture>)
    ensures |r| == |byKey|
  {
    if byKey == [] then []
    else
      Recaptured(byKey[..|byKey| - 1], now) + [Recapture(byKey[|byKey| - 1], now)]
  }

  lemma {:induction false} CapturesBack(keyOf: Normalizer, aliasOf: Normalizer, now: real, byKey: seq<Record>)
    requires Persistable(byKey, now)
    requires forall r | r in byKey :: keyOf(r.key) == Some(r.key)
    requires forall r, a | r in byKey && a in r.entry.aliases :: aliasOf(a) == Some(a)
    ensures Captures(keyOf, aliasOf, now, Persist(byKey)) == Recaptured(byKey, now)
  {
    if byKey != [] {
      var n := |byKey| - 1;
      assert byKey[n] in byKey && forall x | x in byKey[..n] :: x in byKey;
      CapturesBack(keyOf, aliasOf, now, byKey[..n]);
      assert Persist(byKey)[..n] == Persist(byKey[..n]);
      CaptureBack(keyOf, aliasOf, now, byKey[n]);
    }
  }

  function Recapture(r: Record, now: real): Capture {
    Capture(r.key, r.entry.dataUrl, r.entry.capturedAt, r.entry.aliases, now)
  }

  /** Merging in a record with a new key adds it at the end as it is. */
  lemma MergeOneBack(byKey: seq<Record>, r: Record, now: real)
    requires !HasKey(byKey, r.key) && DistinctStrings(r.entry.aliases) && |r.entry.aliases| <= MAX_ALIASES
    ensures Put(byKey, r.key, NextEntry(Find(byKey, r.key), Recapture(r, now))) == byKey + [r]
  {
    FindHas(byKey, r.key);
    PutNew(byKey, r);
    UniqueDistinct(r.entry.aliases);
    assert r.entry.aliases + [] == r.entry.aliases;
  }

  ghost predicate GoodAliases(byKey: seq<Record>) {
    forall r | r in byKey :: DistinctStrings(r.entry.aliases) && |r.entry.aliases| <= MAX_ALIASES
  }

  lemma MergeLast(captures: seq<Capture>, c: Capture)
    ensures MergeAll(captures + [c]) == Put(MergeAll(captures), c.key, NextEntry(Find(MergeAll(captures), c.key), c))
  {
    assert (captures + [c])[..|captures|] == captures;
  }

  lemma {:induction false} MergeBack(byKey: seq<Record>, now: real)
    requires DistinctKeys(byKey) && GoodAliases(byKey)
    ensures MergeAll(Recaptured(byKey, now)) == byKey
  {
    if byKey != [] {
      var n := |byKey| - 1;
      SplitLast(byKey);
      MergeBack(byKey[..n], now);
      MergeBackStep(byKey[..n], byKey[n], now);
    }
  }

  lemma SplitLast(byKey: seq<Record>)
    requires byKey != [] && DistinctKeys(byKey) && GoodAliases(byKey)
    ensures var before, r := byKey[..|byKey| - 1], byKey[|byKey| - 1];
            && byKey == before + [r] && DistinctKeys(before) && GoodAliases(before) && !HasKey(before, r.key)
            && DistinctStrings(r.entry.aliases) && |r.entry.aliases| <= MAX_ALIASES
  {
    var n := |byKey| - 1;
    assert byKey[n] in byKey && forall x | x in byKey[..n] :: x in byKey;
  }

  lemma MergeBackStep(before: seq<Record>, r: Record, now: real)
    requires MergeAll(Recaptured(before, now)) == before && !HasKey(before, r.key)
    requires DistinctStrings(r.entry.aliases) && |r.entry.aliases| <= MAX_ALIASES
    ensures MergeAll(Recaptured(before, now) + [Recapture(r, now)]) == before + [r]
  {
    MergeLast(Recaptured(before, now), Recapture(r, now));
    MergeOneBack(before, r, now);
  }

  /** Persisting the store and reading it back later gives the store, whatever captures made
      it, if its keys and aliases are in their normal form. */
  lemma Rehydrates(keyOf: Normalizer, aliasOf: Normalizer, history: seq<Capture>, now: real)
    requires NoLaterThan(history, now)
    requires forall r | r in Run(history) :: keyOf(r.key) == Some(r.key)
    requires forall r, a | r in Run(history) && a in r.entry.aliases :: aliasOf(a) == Some(a)
    ensures Evict(MergeAll(Captures(keyOf, aliasOf, now, Persist(Run(history))))) == Run(history)
  {
    RunPersistable(history, now);
    CapturesBack(keyOf, aliasOf, now, Run(history));
    MergeBack(Run(history), now);
  }
}
