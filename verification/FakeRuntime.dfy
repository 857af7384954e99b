/**
 The simulated runtime: it applies each effect once, remembers it, and rebuilds itself from the file it keeps.
 */
module FakeRuntime {
  import opened Wrappers
  import opened ControlPlane

  datatype Applied = Applied(effect: Id, endpoint: Id, action: Action, stopped: bool)

  function Stops(action: Action): bool { action == Stop || action == Delete }

  function Find(records: seq<Applied>, effect: Id): Option<Applied> {
    if records == [] then None
    else if records[0].effect == effect then Some(records[0])
    else Find(records[1..], effect)
  }

  predicate Distinct(records: seq<Applied>) {
    forall j, k :: 0 <= j < k < |records| ==> records[j].effect != records[k].effect
  }

  /** What an endpoint went through, in order, and how it stands. */
  function ActionsOf(records: seq<Applied>, e: Id): seq<Action> {
    if records == [] then []
    else
      var r := records[|records| - 1];
      ActionsOf(records[..|records| - 1], e) + if r.endpoint == e then [r.action] else []
  }

  function StandsStopped(records: seq<Applied>, e: Id): Option<bool> {
    if records == [] then None
    else
      var r := records[|records| - 1];
      if r.endpoint == e then Some(r.stopped) else StandsStopped(records[..|records| - 1], e)
  }

  function Get<T>(m: map<Id, T>, k: Id, otherwise: T): T { if k in m then m[k] else otherwise }

  lemma {:induction false} FindHas(records: seq<Applied>, effect: Id)
    ensures Find(records, effect).Some? <==> exists k :: 0 <= k < |records| && records[k].effect == effect
    ensures Find(records, effect).Some? ==>
              Find(records, effect).value in records && Find(records, effect).value.effect == effect
  {
    if records != [] && records[0].effect != effect {
      FindHas(records[1..], effect);
      forall k | 0 <= k < |records| && records[k].effect == effect ensures Find(records[1..], effect).Some? {
        assert records[1..][k - 1].effect == effect;
      }
    }
  }

  lemma ActionsSnoc(records: seq<Applied>, r: Applied, e: Id)
    ensures ActionsOf(records + [r], e) == ActionsOf(records, e) + if r.endpoint == e then [r.action] else []
    ensures StandsStopped(records + [r], e) == if r.endpoint == e then Some(r.stopped) else StandsStopped(records, e)
  {
    assert (records + [r])[..|records|] == records;
  }

  /** The last record of an endpoint. */
  predicate LastOf(records: seq<Applied>, e: Id, k: nat) {
    k < |records| && records[k].endpoint == e && forall j :: k < j < |records| ==> records[j].endpoint != e
  }

  /** An endpoint stands as its last record says. */
  lemma {:induction false} StandsAsLast(records: seq<Applied>, e: Id, k: nat)
    requires LastOf(records, e, k)
    ensures StandsStopped(records, e) == Some(records[k].stopped)
  {
    var m := |records| - 1;
    if k < m {
      assert records[m].endpoint != e;
      StandsAsLast(records[..m], e, k);
    }
  }

  class FakeRuntime {
    var effectRecords: seq<Applied> // in the order they were made
    var effects: map<Id, seq<Action>>
    var stopped: map<Id, bool>
    var file: seq<Applied>

    /**
     Each effect was applied once; what is held by endpoint agrees with the records; the file is an earlier
     state of them.
     */
    ghost predicate Valid()
      reads this
    {
      Distinct(effectRecords) && file <= effectRecords && Agrees()
    }

    ghost predicate Agrees()
      reads this
    {
      && (forall e :: Get(effects, e, []) == ActionsOf(effectRecords, e))
      && (forall e :: (if e in stopped then Some(stopped[e]) else None) == StandsStopped(effectRecords, e))
    }

    constructor Open(file: seq<Applied>)
      requires Distinct(file)
      ensures Valid() && effectRecords == file && this.file == file
    {
      this.file := file;
      effectRecords, effects, stopped := [], map[], map[];
      new;
      var i := 0;
      while i < |file|
        invariant 0 <= i <= |file| && effectRecords == file[..i] && Agrees() && this.file == file
      {
        var r := file[i];
        assert file[..i + 1] == file[..i] + [r];
        Remember(r);
        i := i + 1;
      }
      assert file[..i] == file;
    }

    method Remember(r: Applied)
      requires Agrees()
      modifies this`effectRecords, this`effects, this`stopped
      ensures Agrees() && effectRecords == old(effectRecords) + [r]
    {
      forall e
        ensures ActionsOf(effectRecords + [r], e) == ActionsOf(effectRecords, e) + if r.endpoint == e then [r.action]
                else []
        ensures StandsStopped(effectRecords + [r], e) == if r.endpoint == e then Some(r.stopped)
                else StandsStopped(effectRecords, e)
      {
        ActionsSnoc(effectRecords, r, e);
      }
      effects := effects[r.endpoint := Get(effects, r.endpoint, []) + [r.action]];
      stopped := stopped[r.endpoint := r.stopped];
      effectRecords := effectRecords + [r];
    }

    /**
     Applies an effect once. A known effect is answered from its record and changes nothing; one whose progress
     report is refused changes nothing either; otherwise it is recorded, and written to the file if the write works.
     */
    method Apply(effect: Id, endpoint: Id, action: Action, reported: bool, written: bool) returns (r: Result<bool, ()>)
      requires Valid()
      modifies this
      ensures Valid()
      ensures var known := Find(old(effectRecords), effect);
              if known.Some? then r == Ok(known.value.stopped) && effectRecords == old(effectRecords)
                  && file == old(file)
              else if !reported then r == Err(()) && effectRecords == old(effectRecords) && file == old(file)
              else
                var stops := action in {Stop, Delete};
                && effectRecords == old(effectRecords) + [Applied(effect, endpoint, action, stops)]
                && (r == if written then Ok(stops) else Err(()))
                && file == if written then effectRecords else old(file)
    {
      FindHas(effectRecords, effect);
      var existing := Find(effectRecords, effect);
      if existing.Some? { return Ok(existing.value.stopped); }
      if !reported { return Err(()); }
      Remember(Applied(effect, endpoint, action, Stops(action)));
      if !written { return Err(()); }
      file := effectRecords;
      r := Ok(Stops(action));
    }
  }
}
