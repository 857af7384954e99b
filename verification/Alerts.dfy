/**
 The alert machine of one endpoint's QQ login: one transition per sweep, and what any run of sweeps reports.
 */
module Alerts {
  import opened Wrappers

  datatype Login = Unknown | Online | Offline | OfflinePending
  datatype Alert = WentOffline | Recovered

  /** The row a sweep keeps: the last state, whether an incident is open, and since when the endpoint looks offline. */
  datatype State = State(login: Login, incidentOpen: bool, offlineSince: Option<int>)

  /** What a sweep finds. Times and the grace period are milliseconds. */
  datatype Sweep =
    | Sample(observedAt: Option<int>, online: Option<bool>, now: int, grace: int)
    | NotWanted // the endpoint is not desired to run

  const START := State(Unknown, false, None)

  predicate Recent(s: Sweep) {
    s.Sample? && s.observedAt.Some? && s.now - s.observedAt.value <= s.grace && s.observedAt.value <= s.now
  }

  function Transition(st: State, s: Sweep): (State, Option<Alert>)
    requires s.Sample?
  {
    if !Recent(s) || s.online.None? then (State(Unknown, st.incidentOpen, None), None)
    else if s.online.value then (State(Online, false, None), if st.incidentOpen then Some(Recovered) else None)
    else
      var since := if st.offlineSince.Some? then st.offlineSince.value else s.now;
      if s.now - since < s.grace then (State(OfflinePending, st.incidentOpen, Some(since)), None)
      else (State(Offline, true, Some(since)), if st.incidentOpen then None else Some(WentOffline))
  }

  function SweepOnce(st: State, s: Sweep): (State, Option<Alert>) {
    if s.NotWanted? then (START, None) else Transition(st, s)
  }

  // --- runs ---

  function After(run: seq<Sweep>): State {
    if run == [] then START else SweepOnce(After(run[..|run| - 1]), run[|run| - 1]).0
  }

  /** What the last sweep of a run reports. */
  function AlertOf(run: seq<Sweep>): Option<Alert>
    requires run != []
  {
    SweepOnce(After(run[..|run| - 1]), run[|run| - 1]).1
  }

  /** The alerts since the endpoint was last not wanted, in order. */
  function AlertsOf(run: seq<Sweep>): seq<Alert> {
    if run == [] || run[|run| - 1].NotWanted? then []
    else AlertsOf(run[..|run| - 1]) + if AlertOf(run).Some? then [AlertOf(run).value] else []
  }

  /** An observation no older than the grace period, and not from the future. */
  predicate Observed(s: Sweep) {
    s.Sample? && s.observedAt.Some? && 0 <= s.now - s.observedAt.value <= s.grace
  }

  predicate SeenOffline(s: Sweep) { Observed(s) && s.online == Some(false) }
  predicate SeenOnline(s: Sweep) { Observed(s) && s.online == Some(true) }

  /** Where the unbroken run of offline samples that ends a run begins. */
  function OfflineFrom(run: seq<Sweep>): (k: nat)
    requires run != [] && SeenOffline(run[|run| - 1])
    ensures k < |run| && (forall j :: k <= j < |run| ==> SeenOffline(run[j])) && (k > 0 ==> !SeenOffline(run[k - 1]))
  {
    var k := |run| - 1;
    if k == 0 || !SeenOffline(run[k - 1]) then k else OfflineFrom(run[..k])
  }

  /**
   The stored time is that of the first sample of the unbroken offline run, and there is one only during such a
   run.
   */
  lemma {:induction false} OfflineSinceIsFirst(run: seq<Sweep>)
    requires run != []
    ensures After(run).offlineSince == if SeenOffline(run[|run| - 1]) then Some(run[OfflineFrom(run)].now) else None
  {
    var k := |run| - 1;
    if k == 0 {
      assert run[..k] == [] && After(run[..k]) == START;
    } else if SeenOffline(run[k]) {
      var before, m := run[..k], k - 1;
      OfflineSinceIsFirst(before);
      assert before[|before| - 1] == run[m] && After(run) == Transition(After(before), run[k]).0;
      if SeenOffline(run[m]) {
        assert OfflineFrom(run) == OfflineFrom(before);
        assert before[OfflineFrom(before)] == run[OfflineFrom(run)];
        assert After(before).offlineSince == Some(run[OfflineFrom(run)].now);
      } else {
        assert OfflineFrom(run) == k;
        assert After(before).offlineSince == None;
      }
    }
  }

  predicate Alternate(alerts: seq<Alert>) {
    forall k :: 0 <= k < |alerts| ==> alerts[k] == if k % 2 == 0 then WentOffline else Recovered
  }

  /** The last alert since the endpoint was last not wanted is the offline one. */
  predicate Alarmed(run: seq<Sweep>) {
    AlertsOf(run) != [] && AlertsOf(run)[|AlertsOf(run)| - 1] == WentOffline
  }

  /**
   Since the last reset alerts alternate, beginning with offline, and an incident is open exactly after an
   offline one.
   */
  lemma {:induction false} AlertsAlternate(run: seq<Sweep>)
    ensures Alternate(AlertsOf(run))
    ensures After(run).incidentOpen <==> Alarmed(run)
    ensures After(run).incidentOpen <==> |AlertsOf(run)| % 2 == 1
  {
    if run != [] && !run[|run| - 1].NotWanted? {
      AlertsAlternate(run[..|run| - 1]);
    }
  }

  /**
   An offline alert is raised exactly when the last alert since the reset was not offline and the samples have
   been recent and offline, without a break, for at least the grace period.
   */
  lemma OfflineAlertExactly(run: seq<Sweep>)
    requires run != []
    ensures var k := |run| - 1;
            AlertOf(run) == Some(WentOffline) <==>
              SeenOffline(run[k]) && !Alarmed(run[..k]) && run[k].now - run[OfflineFrom(run)].now >= run[k].grace
  {
    var k := |run| - 1;
    OfflineSinceIsFirst(run);
    AlertsAlternate(run[..k]);
    if SeenOffline(run[k]) { assert After(run) == SweepOnce(After(run[..k]), run[k]).0; }
  }

  /**
   A recovery is reported exactly when a recent online sample comes and the last alert since the reset was
   offline.
   */
  lemma RecoveryAlertExactly(run: seq<Sweep>)
    requires run != []
    ensures AlertOf(run) == Some(Recovered) <==> SeenOnline(run[|run| - 1]) && Alarmed(run[..|run| - 1])
  {
    AlertsAlternate(run[..|run| - 1]);
  }

  /**
   A gap in the samples starts the grace period anew: an offline alert after it comes a whole grace period
   after an offline sample that follows the gap, with only offline ones in between.
   */
  lemma GapRestartsTheGrace(before: seq<Sweep>, gap: Sweep, after: seq<Sweep>)
    requires !SeenOffline(gap) && after != []
    ensures var run := before + [gap] + after;
            var last := run[|run| - 1];
            AlertOf(run) == Some(WentOffline) ==>
              SeenOffline(last) && OfflineFrom(run) > |before| && last.now - run[OfflineFrom(run)].now >= last.grace
  {
    var run := before + [gap] + after;
    OfflineAlertExactly(run);
    assert run[|before|] == gap;
  }

  /**
   The state kept is what the samples say: online, offline once the unbroken offline run spans the grace period,
   pending before that, and unknown after a sample that says nothing or when the endpoint is not to run.
   */
  lemma StateSaysWhatWasSeen(run: seq<Sweep>)
    requires run != []
    ensures var last := run[|run| - 1];
            After(run).login ==
              if SeenOnline(last) then Online
              else if !SeenOffline(last) then Unknown
              else if last.now - run[OfflineFrom(run)].now >= last.grace then Offline
              else OfflinePending
  {
    var k := |run| - 1;
    OfflineSinceIsFirst(run);
    assert After(run) == SweepOnce(After(run[..k]), run[k]).0;
  }
}
