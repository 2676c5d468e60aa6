/** The durable state record seen on its own: a sequence of records in which every
    change either records a fresh update or settles the pending one
    (apps/server/src/serviceLauncher.ts, the three callers of `writeServiceState`). */
module RecordHistory {
  import opened Outcomes
  import opened ServiceProtocol

  function Ids(s: ServiceState): set<UpdateId> {
    if s.update.Some? then {s.update.value.Id()} else {}
  }

  /** A fresh update is recorded, or the pending one is settled, raising the active
      version only if it commits. */
  predicate Changes(s: ServiceState, s': ServiceState) {
    if s.IsPending() then
      var p := s.PendingUpdate();
      && s'.update.Some? && s'.update.value.Finished?
      && s'.update.value.id == p.id && s'.update.value.from == p.from && s'.update.value.target == p.target
      && s'.active == (if s'.update.value.status == Committed then p.target else s.active)
    else
      s'.IsPending() && s'.active == s.active
  }

  ghost predicate FreshAt(ss: seq<ServiceState>, j: nat)
    requires j < |ss|
  {
    forall i | 0 <= i < j :: Ids(ss[i]) !! Ids(ss[j])
  }

  /** Every record decodes, changes are of the two kinds, and a newly recorded update has
      an identifier no earlier record carries. */
  ghost predicate Lawful(ss: seq<ServiceState>) {
    && (forall j | 0 <= j < |ss| :: Decodes(ss[j]))
    && (forall j | 1 <= j < |ss| :: ss[j] == ss[j - 1] || Changes(ss[j - 1], ss[j]))
    && (forall j | 1 <= j < |ss| :: ss[j] != ss[j - 1] && ss[j].IsPending() ==> FreshAt(ss, j))
  }

  /** An identifier never comes back once the record carries another one. */
  lemma Continuous(ss: seq<ServiceState>, i: nat, j: nat, id: UpdateId)
    requires Lawful(ss) && i < j < |ss| && id in Ids(ss[i]) && id in Ids(ss[j])
    ensures id in Ids(ss[j - 1])
    ensures ss[j] == ss[j - 1] || (ss[j - 1].IsPending() && Changes(ss[j - 1], ss[j]))
  {
    assert ss[j] != ss[j - 1] && ss[j].IsPending() ==> FreshAt(ss, j);
  }

  /** Each update gets at most one terminal status. */
  lemma {:induction false} SettledOnce(ss: seq<ServiceState>, i: nat, j: nat)
    requires Lawful(ss) && i <= j < |ss|
    requires ss[i].update.Some? && ss[i].update.value.Finished? && ss[i].update.value.id in Ids(ss[j])
    ensures ss[j] == ss[i]
    decreases j
  {
    if i < j {
      Continuous(ss, i, j, ss[i].update.value.id);
      SettledOnce(ss, i, j - 1);
    }
  }

  /** While an identifier is on record, it stands for the same update; settling it keeps
      its versions. */
  lemma {:induction false} PendingOnce(ss: seq<ServiceState>, i: nat, j: nat)
    requires Lawful(ss) && i <= j < |ss| && ss[i].IsPending() && ss[i].PendingUpdate().id in Ids(ss[j])
    ensures ss[j].IsPending() ==> ss[j] == ss[i]
    ensures !ss[j].IsPending() ==>
              && ss[j].update.value.from == ss[i].PendingUpdate().from
              && ss[j].update.value.target == ss[i].PendingUpdate().target
    decreases j
  {
    if i < j {
      Continuous(ss, i, j, ss[i].PendingUpdate().id);
      PendingOnce(ss, i, j - 1);
    }
  }

  /** Settling an update without committing it leaves the version it started from active. */
  lemma NotCommittedKeepsActive(ss: seq<ServiceState>, i: nat, j: nat)
    requires Lawful(ss) && i <= j < |ss| && ss[i].IsPending() && ss[i].PendingUpdate().id in Ids(ss[j])
    requires ss[j].update.value.Finished? && ss[j].update.value.status != Committed
    ensures ss[j].active == ss[i].PendingUpdate().from
  {
    PendingOnce(ss, i, j);
  }

  /** Once settled, an update is never pending again. */
  lemma {:induction false} SettledStays(ss: seq<ServiceState>, i: nat, j: nat)
    requires Lawful(ss) && i <= j < |ss| && ss[i].update.Some? && ss[i].update.value.Finished?
    ensures ss[j].IsPending() ==> ss[j].PendingUpdate().id != ss[i].update.value.id
  {
    if ss[i].update.value.id in Ids(ss[j]) {
      SettledOnce(ss, i, j);
    }
  }

  lemma Raised(s: ServiceState, s': ServiceState)
    requires Decodes(s) && (s' == s || Changes(s, s'))
    ensures Compare(s.active, s'.active) <= 0
  {
    CompareOrder(s.active, s.active, s.active);
    if s.IsPending() {
      CompareOrder(s.PendingUpdate().target, s.active, s.active);
    }
  }

  /** The active version never decreases. */
  lemma {:induction false} ActiveNeverDecreases(ss: seq<ServiceState>, i: nat, j: nat)
    requires Lawful(ss) && i <= j < |ss|
    ensures Compare(ss[i].active, ss[j].active) <= 0
    decreases j
  {
    if i == j {
      CompareOrder(ss[i].active, ss[i].active, ss[i].active);
    } else {
      ActiveNeverDecreases(ss, i, j - 1);
      Raised(ss[j - 1], ss[j]);
      CompareOrder(ss[i].active, ss[j - 1].active, ss[j].active);
    }
  }

  /** Only a commit changes the active version, and it selects the update's target. */
  lemma OnlyCommitRaises(ss: seq<ServiceState>, j: nat)
    requires Lawful(ss) && 1 <= j < |ss| && ss[j].active != ss[j - 1].active
    ensures ss[j - 1].IsPending() && ss[j - 1].PendingUpdate().from == ss[j - 1].active
    ensures ss[j].active == ss[j - 1].PendingUpdate().target && Compare(ss[j].active, ss[j - 1].active) > 0
    ensures ss[j].update.value.Finished? && ss[j].update.value.status == Committed
  {
  }
}
