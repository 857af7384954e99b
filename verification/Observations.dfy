/**
 Observation rows of one endpoint: the order in which they appear, what readers take from them, and
 why retention never changes what a reader sees.
 */
module Observations {
  import opened ControlPlane

  const DAY: Time := 86_400_000
  const EVIDENCE_RETENTION: Time := 30 * DAY

  /** Rows have distinct times, and a newer row never describes an older generation. */
  ghost predicate Chronicle(rows: set<Observation>, generation: nat, clock: Time) {
    && (forall a, b :: a in rows && b in rows && a.createdAt == b.createdAt ==> a == b)
    && (forall a, b :: a in rows && b in rows && a.createdAt < b.createdAt ==> a.generation <= b.generation)
    && (forall a :: a in rows ==> a.generation <= generation && a.createdAt <= clock)
  }

  predicate Newest(rows: set<Observation>, r: Observation) {
    r in rows && forall q :: q in rows ==> q.createdAt <= r.createdAt
  }

  predicate NewestAt(rows: set<Observation>, generation: nat, r: Observation) {
    r in rows && r.generation == generation && forall q :: q in rows && q.generation == generation ==>
          q.createdAt <= r.createdAt
  }

  /** A row retention may delete: old, and shadowed by newer rows of the kinds readers look for. */
  predicate Expired(rows: set<Observation>, r: Observation, now: Time) {
    && r in rows
    && r.createdAt + DAY < now
    && (r.operation.None? || r.createdAt + EVIDENCE_RETENTION < now)
    && (exists q :: q in rows && r.createdAt < q.createdAt)
    && (r.operation.Some? || exists q :: q in rows && q.operation.None? && r.createdAt < q.createdAt)
  }

  function ExpiredRows(rows: set<Observation>, now: Time): set<Observation> {
    set r | r in rows && Expired(rows, r, now)
  }

  lemma {:induction false} MaxExists(rows: set<Observation>) returns (r: Observation)
    requires rows != {}
    ensures Newest(rows, r)
    decreases rows
  {
    r :| r in rows;
    if rows != {r} {
      var q := MaxExists(rows - {r});
      if r.createdAt < q.createdAt { r := q; }
      assert forall x :: x in rows ==> x in rows - {q} || x == q;
    }
  }

  /**
   Deleting expired rows leaves the newest row, the newest row of the current generation and the newest
   snapshot as they were.
   */
  lemma PruneIsInvisible(rows: set<Observation>, removed: set<Observation>, generation: nat, clock: Time, now: Time,
      r: Observation)
    requires Chronicle(rows, generation, clock) && removed <= ExpiredRows(rows, now)
    ensures Chronicle(rows - removed, generation, clock)
    ensures Newest(rows - removed, r) <==> Newest(rows, r)
    ensures NewestAt(rows - removed, generation, r) <==> NewestAt(rows, generation, r)
    ensures LatestSnapshot(rows - removed, r) <==> LatestSnapshot(rows, r)
  {
    PruneKeepsNewest(rows, removed, generation, clock, now, r);
    PruneKeepsSnapshot(rows, removed, now, r);
  }

  lemma PruneKeepsSnapshot(rows: set<Observation>, removed: set<Observation>, now: Time, r: Observation)
    requires removed <= ExpiredRows(rows, now)
    ensures LatestSnapshot(rows - removed, r) <==> LatestSnapshot(rows, r)
  {
    var snapshots := set q | q in rows && q.operation.None?;
    if snapshots == {} {
      assert r in rows && r.operation.None? ==> r in snapshots;
    } else {
      var top := MaxExists(snapshots);
      forall q | q in rows && q.operation.None? ensures q.createdAt <= top.createdAt { assert q in snapshots; }
      assert top in rows - removed;
    }
  }

  lemma PruneKeepsNewest(rows: set<Observation>, removed: set<Observation>, generation: nat, clock: Time, now: Time,
      r: Observation)
    requires Chronicle(rows, generation, clock) && removed <= ExpiredRows(rows, now)
    ensures Newest(rows - removed, r) <==> Newest(rows, r)
    ensures NewestAt(rows - removed, generation, r) <==> NewestAt(rows, generation, r)
  {
    if rows != {} {
      var top := MaxExists(rows);
      assert top in rows - removed;
      if exists q :: q in rows && q.generation == generation { assert top.generation == generation; }
    }
  }

  // --- every writer keeps the order ---

  lemma InsertKeepsOrder(rows: set<Observation>, row: Observation, generation: nat, clock: Time)
    requires Chronicle(rows, generation, clock) && row.createdAt > clock && row.generation == generation
    ensures Chronicle(rows + {row}, generation, row.createdAt)
  {
  }

  lemma SnapshotKeepsOrder(rows: set<Observation>, generation: nat, state: string, clock: Time, now: Time)
    requires Chronicle(rows, generation, clock) && now >= clock
    requires forall r :: r in rows && r.createdAt == now ==> LatestSnapshot(rows, r)
    ensures Chronicle(Snapshot(rows, generation, state, now), generation, now)
    ensures forall r :: r in Snapshot(rows, generation, state, now) && r.createdAt == now ==>
              LatestSnapshot(Snapshot(rows, generation, state, now), r)
  {
  }

  /** The order holds on every endpoint, and deleted endpoints keep no rows. */
  ghost predicate OrderedAt(s: Tables, e: Id, clock: Time)
    requires e in s.endpoints
  {
    Chronicle(ObservationsOf(s, e), s.endpoints[e].generation, clock)
  }

  ghost predicate Ordered(s: Tables, clock: Time) {
    && s.observations.Keys <= s.endpoints.Keys
    && forall e {:trigger OrderedAt(s, e, clock)} :: e in s.endpoints ==> OrderedAt(s, e, clock)
  }

  lemma LaterClock(s: Tables, t: Tables, clock: Time, now: Time)
    requires Ordered(s, clock) && clock <= now && t.observations == s.observations
    requires s.endpoints.Keys <= t.endpoints.Keys
    requires forall e :: e in s.endpoints ==> s.endpoints[e].generation <= t.endpoints[e].generation
    ensures Ordered(t, now)
  {
    forall e | e in t.endpoints ensures OrderedAt(t, e, now) {
      if e in s.endpoints { assert OrderedAt(s, e, clock); }
    }
  }

  lemma ObserveKeepsOrder(s: Tables, e: Id, row: Observation, clock: Time)
    requires Ordered(s, clock) && e in s.endpoints && row.createdAt > clock
             && row.generation == s.endpoints[e].generation
    ensures Ordered(Observe(s, e, row), row.createdAt)
  {
    var t := Observe(s, e, row);
    forall f | f in t.endpoints ensures OrderedAt(t, f, row.createdAt) {
      assert OrderedAt(s, f, clock);
      if f == e { InsertKeepsOrder(ObservationsOf(s, e), row, s.endpoints[e].generation, clock); }
    }
  }

  lemma FinalizeKeepsOrder(s: Tables, e: Id, clock: Time)
    requires Ordered(s, clock) && e in s.endpoints
    ensures Ordered(Finalize(s, e), clock)
  {
    var t := Finalize(s, e);
    forall f | f in t.endpoints ensures OrderedAt(t, f, clock) { assert OrderedAt(s, f, clock); }
  }

  /** Rows a heartbeat wrote at `now` are the newest snapshots, so a repeated report renews the same row. */
  ghost predicate FreshAt(s: Tables, e: Id, now: Time) {
    forall r :: r in ObservationsOf(s, e) && r.createdAt == now ==> LatestSnapshot(ObservationsOf(s, e), r)
  }

  ghost predicate Freshest(s: Tables, now: Time) {
    forall e {:trigger FreshAt(s, e, now)} :: FreshAt(s, e, now)
  }

  lemma ReplaceKeepsOrder(s: Tables, e: Id, rows: set<Observation>, now: Time)
    requires Ordered(s, now) && Freshest(s, now) && e in s.endpoints && Chronicle(rows, s.endpoints[e].generation, now)
    requires forall r :: r in rows && r.createdAt == now ==> LatestSnapshot(rows, r)
    ensures var t := s.(observations := s.observations[e := rows]); Ordered(t, now) && Freshest(t, now)
  {
    var t := s.(observations := s.observations[e := rows]);
    assert ObservationsOf(t, e) == rows;
    forall f | f in t.endpoints && f != e ensures OrderedAt(t, f, now) {
      assert OrderedAt(s, f, now) && ObservationsOf(t, f) == ObservationsOf(s, f);
    }
    forall f | f != e ensures FreshAt(t, f, now) {
      assert FreshAt(s, f, now) && ObservationsOf(t, f) == ObservationsOf(s, f);
    }
  }

  lemma ReportOneKeepsOrder(s: Tables, n: Id, r: RuntimeReport, now: Time)
    requires Ordered(s, now) && Freshest(s, now)
    ensures Ordered(ReportOne(s, n, r, now), now) && Freshest(ReportOne(s, n, r, now), now)
  {
    if Reported(s, n, r) {
      var rows := ObservationsOf(s, r.endpoint);
      assert OrderedAt(s, r.endpoint, now) && FreshAt(s, r.endpoint, now);
      SnapshotKeepsOrder(rows, r.generation, r.state, now, now);
      ReplaceKeepsOrder(s, r.endpoint, Snapshot(rows, r.generation, r.state, now), now);
    }
  }

  lemma {:induction false} ReportAllKeepsOrder(s: Tables, n: Id, runtimes: seq<RuntimeReport>, clock: Time, now: Time)
    requires Ordered(s, clock) && clock < now
    ensures ReportAll(s, n, runtimes, now) == s.(observations := ReportAll(s, n, runtimes, now).observations)
    ensures Ordered(ReportAll(s, n, runtimes, now), now) && Freshest(ReportAll(s, n, runtimes, now), now)
  {
    if runtimes == [] {
      LaterClock(s, s, clock, now);
      forall e ensures FreshAt(s, e, now) { if e in s.endpoints { assert OrderedAt(s, e, clock); } }
    } else {
      ReportAllKeepsOrder(s, n, runtimes[..|runtimes| - 1], clock, now);
      ReportOneKeepsOrder(ReportAll(s, n, runtimes[..|runtimes| - 1], now), n, runtimes[|runtimes| - 1], now);
    }
  }

  /** Retention over one endpoint: any expired rows, in any order, up to any limit. */
  function Prune(s: Tables, e: Id, removed: set<Observation>): Tables {
    if e in s.observations then s.(observations := s.observations[e := s.observations[e] - removed]) else s
  }

  lemma PruneKeepsOrder(s: Tables, e: Id, removed: set<Observation>, clock: Time, now: Time)
    requires Ordered(s, clock) && removed <= ExpiredRows(ObservationsOf(s, e), now)
    ensures Ordered(Prune(s, e, removed), clock)
    ensures e in s.endpoints ==> forall r {:trigger Newest(ObservationsOf(s, e),
                                                           r)} {:trigger NewestAt(ObservationsOf(s, e),
                                                               s.endpoints[e].generation, r)} ::
              && (Newest(ObservationsOf(Prune(s, e, removed), e), r) <==> Newest(ObservationsOf(s, e), r))
              && (NewestAt(ObservationsOf(Prune(s, e, removed), e), s.endpoints[e].generation, r) <==>
                  NewestAt(ObservationsOf(s, e), s.endpoints[e].generation, r))
              && (LatestSnapshot(ObservationsOf(Prune(s, e, removed), e), r) <==>
                  LatestSnapshot(ObservationsOf(s, e), r))
  {
    var t := Prune(s, e, removed);
    var rows := ObservationsOf(s, e);
    assert ObservationsOf(t, e) == rows - removed;
    if e in s.endpoints {
      assert OrderedAt(s, e, clock);
      forall r
        ensures Newest(rows - removed, r) <==> Newest(rows, r)
        ensures NewestAt(rows - removed, s.endpoints[e].generation, r) <==> NewestAt(rows, s.endpoints[e].generation, r)
        ensures LatestSnapshot(rows - removed, r) <==> LatestSnapshot(rows, r)
      {
        PruneIsInvisible(rows, removed, s.endpoints[e].generation, clock, now, r);
      }
    }
    forall f | f in t.endpoints ensures OrderedAt(t, f, clock) { assert OrderedAt(s, f, clock); }
  }

  /** Deleting some expired rows makes no other row expire or cease to. */
  lemma PruneKeepsExpiry(rows: set<Observation>, removed: set<Observation>, now: Time)
    requires removed <= ExpiredRows(rows, now)
    ensures ExpiredRows(rows - removed, now) == ExpiredRows(rows, now) - removed
  {
    forall r | r in rows - removed && Expired(rows, r, now) ensures Expired(rows - removed, r, now) {
      var top := MaxExists(rows);
      assert top in rows - removed && r.createdAt < top.createdAt;
      if r.operation.None? {
        var snapshots := set q | q in rows && q.operation.None?;
        assert r in snapshots;
        var latest := MaxExists(snapshots);
        assert latest in rows - removed && r.createdAt < latest.createdAt;
      }
    }
  }

  /** The `limit` oldest of some rows, or all of them. */
  predicate Oldest(rows: set<Observation>, picked: set<Observation>, limit: nat) {
    && picked <= rows && |picked| == (if |rows| < limit then |rows| else limit)
    && forall u, v :: u in picked && v in rows - picked ==> u.createdAt <= v.createdAt
  }

  lemma {:induction false} OldestRowsExist(rows: set<Observation>, limit: nat) returns (picked: set<Observation>)
    ensures Oldest(rows, picked, limit)
    decreases rows
  {
    if |rows| <= limit {
      picked := rows;
    } else {
      var top := MaxExists(rows);
      picked := OldestRowsExist(rows - {top}, limit);
      assert |rows - {top}| == |rows| - 1;
    }
  }
}
