/** Exact versions and the durable state record of the service launcher
    (apps/server/src/cloud/serviceProtocol.ts). Versions are modelled after parsing:
    the record keeps the build text because the launcher compares versions for
    identity as strings, while precedence ignores it. */
module ServiceProtocol {
  import opened Outcomes
  import opened Text

  /** One dot-separated prerelease identifier. The exact-version pattern refuses
      leading zeros, so a numeric identifier is determined by its value. */
  datatype Identifier = Numeric(n: nat) | Alphanumeric(text: string)

  datatype Version = Version(major: nat, minor: nat, patch: nat,
                             prerelease: seq<Identifier>, build: string)

  function CompareIdentifier(a: Identifier, b: Identifier): int {
    match (a, b)
    case (Numeric(x), Numeric(y)) => CompareNat(x, y)
    case (Numeric(_), Alphanumeric(_)) => -1
    case (Alphanumeric(_), Numeric(_)) => 1
    case (Alphanumeric(x), Alphanumeric(y)) => CompareText(x, y)
  }

  /** The loop over both identifier lists: the first difference decides, and a list
      that runs out first is the smaller one. */
  function CompareIdentifiers(a: seq<Identifier>, b: seq<Identifier>): int {
    if a == [] || b == [] then CompareNat(|a|, |b|)
    else if CompareIdentifier(a[0], b[0]) != 0 then CompareIdentifier(a[0], b[0])
    else CompareIdentifiers(a[1..], b[1..])
  }

  /** A version without a prerelease comes after every prerelease of it. */
  function ComparePrerelease(a: seq<Identifier>, b: seq<Identifier>): int {
    if a == [] || b == [] then CompareNat(|b|, |a|)
    else CompareIdentifiers(a, b)
  }

  function Compare(a: Version, b: Version): int {
    if a.major != b.major then CompareNat(a.major, b.major)
    else if a.minor != b.minor then CompareNat(a.minor, b.minor)
    else if a.patch != b.patch then CompareNat(a.patch, b.patch)
    else ComparePrerelease(a.prerelease, b.prerelease)
  }

  // ---------------------------------------------------------------- the order

  lemma IdentifierOrder(a: Identifier, b: Identifier, c: Identifier)
    ensures CompareIdentifier(a, b) == -CompareIdentifier(b, a)
    ensures CompareIdentifier(a, b) == 0 <==> a == b
    ensures CompareIdentifier(a, b) <= 0 && CompareIdentifier(b, c) <= 0 ==> CompareIdentifier(a, c) <= 0
    ensures CompareIdentifier(a, b) < 0 && CompareIdentifier(b, c) <= 0 ==> CompareIdentifier(a, c) < 0
    ensures CompareIdentifier(a, b) <= 0 && CompareIdentifier(b, c) < 0 ==> CompareIdentifier(a, c) < 0
  {
    if a.Alphanumeric? && b.Alphanumeric? {
      TextOrder(a.text, b.text, if c.Alphanumeric? then c.text else "");
    }
  }

  lemma {:induction false} IdentifiersOrder(a: seq<Identifier>, b: seq<Identifier>, c: seq<Identifier>)
    ensures CompareIdentifiers(a, b) == -CompareIdentifiers(b, a)
    ensures CompareIdentifiers(a, b) == 0 <==> a == b
    ensures CompareIdentifiers(a, b) <= 0 && CompareIdentifiers(b, c) <= 0 ==> CompareIdentifiers(a, c) <= 0
    ensures CompareIdentifiers(a, b) < 0 && CompareIdentifiers(b, c) <= 0 ==> CompareIdentifiers(a, c) < 0
    ensures CompareIdentifiers(a, b) <= 0 && CompareIdentifiers(b, c) < 0 ==> CompareIdentifiers(a, c) < 0
    decreases |a| + |b| + |c|
  {
    if a != [] && b != [] {
      IdentifiersOrder(a[1..], b[1..], if c == [] then c else c[1..]);
      IdentifierOrder(a[0], b[0], if c == [] then a[0] else c[0]);
      IdentifierOrder(b[0], a[0], a[0]);
      assert a == [a[0]] + a[1..] && b == [b[0]] + b[1..];
    }
  }

  /** Precedence is a strict weak order whose ties are exactly the versions that
      differ in build metadata only. */
  lemma CompareOrder(a: Version, b: Version, c: Version)
    ensures Compare(a, b) == -Compare(b, a)
    ensures Compare(a, b) == 0 <==> a.(build := b.build) == b
    ensures Compare(a, b) <= 0 && Compare(b, c) <= 0 ==> Compare(a, c) <= 0
    ensures Compare(a, b) < 0 && Compare(b, c) <= 0 ==> Compare(a, c) < 0
    ensures Compare(a, b) <= 0 && Compare(b, c) < 0 ==> Compare(a, c) < 0
  {
    IdentifiersOrder(a.prerelease, b.prerelease, c.prerelease);
  }

  // ---------------------------------------------------------------- what precedence means

  /** Numeric identifiers come before alphanumeric ones, and each kind in its own order. */
  ghost predicate IdentifierBelow(a: Identifier, b: Identifier) {
    match (a, b)
    case (Numeric(x), Numeric(y)) => x < y
    case (Numeric(_), Alphanumeric(_)) => true
    case (Alphanumeric(_), Numeric(_)) => false
    case (Alphanumeric(x), Alphanumeric(y)) => TextBelow(x, y)
  }

  ghost predicate IdentifiersBelowAt(a: seq<Identifier>, b: seq<Identifier>, k: nat) {
    && k <= |a| && k < |b| && a[..k] == b[..k]
    && (k < |a| ==> IdentifierBelow(a[k], b[k]))
  }

  /** The numbers decide first, major before minor before patch; then a prerelease comes
      before the release, and the first differing identifier decides, a longer list of
      identifiers coming after a list it extends. */
  ghost predicate Precedes(a: Version, b: Version) {
    || a.major < b.major
    || (a.major == b.major && a.minor < b.minor)
    || (a.major == b.major && a.minor == b.minor && a.patch < b.patch)
    || (&& a.major == b.major && a.minor == b.minor && a.patch == b.patch && a.prerelease != []
        && (b.prerelease == [] || IdentifiersBelow(a.prerelease, b.prerelease)))
  }

  lemma IdentifiersBelowTail(a: seq<Identifier>, b: seq<Identifier>, k: nat)
    requires a != [] && b != []
    ensures IdentifiersBelowAt(a, b, k + 1) <==> a[0] == b[0] && IdentifiersBelowAt(a[1..], b[1..], k)
  {
    if k < |a| && k < |b| {
      assert a[..k + 1] == [a[0]] + a[1..][..k] && b[..k + 1] == [b[0]] + b[1..][..k];
      assert a[..k + 1][1..] == a[1..][..k] && b[..k + 1][1..] == b[1..][..k];
    }
  }

  ghost predicate IdentifiersBelow(a: seq<Identifier>, b: seq<Identifier>) {
    exists k :: IdentifiersBelowAt(a, b, k)
  }

  lemma {:induction false} CompareIdentifiersMeans(a: seq<Identifier>, b: seq<Identifier>)
    ensures CompareIdentifiers(a, b) < 0 <==> IdentifiersBelow(a, b)
    decreases |a|
  {
    assert IdentifiersBelowAt(a, b, 0) <==> a == [] != b || (a != [] && b != [] && IdentifierBelow(a[0], b[0]));
    if a != [] && b != [] {
      CompareIdentifiersMeans(a[1..], b[1..]);
      CompareIdentifierMeans(a[0], b[0]);
      IdentifierOrder(a[0], b[0], a[0]);
      if IdentifiersBelow(a, b) {
        var k: nat :| IdentifiersBelowAt(a, b, k);
        if k > 0 {
          IdentifiersBelowTail(a, b, k - 1);
        }
      }
      if IdentifiersBelow(a[1..], b[1..]) {
        var k: nat :| IdentifiersBelowAt(a[1..], b[1..], k);
        IdentifiersBelowTail(a, b, k);
      }
    }
  }

  lemma CompareIdentifierMeans(a: Identifier, b: Identifier)
    ensures CompareIdentifier(a, b) < 0 <==> IdentifierBelow(a, b)
  {
    if a.Alphanumeric? && b.Alphanumeric? {
      CompareTextMeans(a.text, b.text);
    }
  }

  /** The comparison is the precedence of section 11 of Semantic Versioning 2.0.0. */
  lemma CompareMeans(a: Version, b: Version)
    ensures Compare(a, b) < 0 <==> Precedes(a, b)
  {
    CompareIdentifiersMeans(a.prerelease, b.prerelease);
  }

  // ---------------------------------------------------------------- the record

  /** Update identifiers are random UUIDs; the model keeps only their identity. */
  type UpdateId = nat

  datatype Status = Committed | RolledBack | Failed

  datatype Reason =
    | NoReason
    | RollbackInterrupted
    | TargetRuntimeMissing
    | DbBackupFailed
    | CandidateStartFailed
    | InvalidPrepared
    | PreparedTimeout
    | CandidateExited

  datatype Pending = Pending(id: UpdateId, from: Version, target: Version, dbPath: string)

  datatype Update =
    | InProgress(pending: Pending)
    | Finished(id: UpdateId, from: Version, target: Version, status: Status, reason: Reason)
  {
    function Id(): UpdateId {
      if InProgress? then pending.id else id
    }
  }

  datatype ServiceState = ServiceState(active: Version, update: Option<Update>)
  {
    predicate IsPending() {
      update.Some? && update.value.InProgress?
    }

    function PendingUpdate(): Pending
      requires IsPending()
    {
      update.value.pending
    }
  }

  /** What `decodeServiceState` demands of a record beyond its field types: the
      target is newer, and the selected version is the one the status implies. */
  predicate Decodes(s: ServiceState) {
    match s.update
    case None => true
    case Some(InProgress(p)) => Compare(p.target, p.from) > 0 && p.from == s.active && HasText(p.dbPath)
    case Some(Finished(_, from, target, status, _)) =>
      Compare(target, from) > 0 && s.active == (if status == Committed then target else from)
  }
}
