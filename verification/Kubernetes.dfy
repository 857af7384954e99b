/**
 The Kubernetes driver's steps on the objects of one runtime, interleaved with the cluster's controllers. Driver
 operations on one name do not run at the same time.
 */
module Kubernetes {
  import opened Wrappers

  type Uid = nat

  datatype Slot = Policy | FrontService | HeadService | Credentials | Workload | Claim

  /** The ownership labels; an empty one is missing. */
  datatype Owner = Owner(endpoint: string, workspace: string, provider: string)
  datatype Resource = Resource(uid: Uid, owner: Owner, deleting: bool)
  datatype Pod = Pod(uid: Uid, owner: Owner, marker: Option<string>, running: bool, unschedulable: bool)

  datatype Outcome =
    | Done | Interrupted | Mismatch | Unavailable | NotFound | TimedOut | Conflicted | Rescheduled(restored: bool)

  type Objects = map<Slot, Resource>

  /** The labels of `o` are complete and `r` carries the same. */
  predicate Owned(r: Resource, o: Owner) {
    o.endpoint != "" && o.workspace != "" && o.provider != "" && r.owner == o
  }

  const SUPPORT: set<Slot> := {Policy, FrontService, HeadService, Credentials}

  /** The supporting objects that exist. */
  function Survivors(objects: Objects): set<Slot> { set s | s in objects && s in SUPPORT }

  /** The workload outlives the objects it vouches for, and is not itself being deleted while they exist. */
  predicate Vouched(objects: Objects) {
    Survivors(objects) != {} ==> Workload in objects && !objects[Workload].deleting
  }

  /** Only objects being deleted can go. */
  predicate Collected(before: Objects, after: Objects) {
    && (forall s :: s in after ==> s in before && after[s] == before[s])
    && (forall s :: s in before && s !in after ==> before[s].deleting)
  }

  /** The driver has only marked for deletion, among these slots, objects with this owner. */
  predicate Deleted(before: Objects, after: Objects, slots: set<Slot>, owner: Owner) {
    && (forall s :: s in after ==> s in before && (after[s] == before[s] || after[s] == before[s].(deleting := true)))
    && (forall s :: s in before && !before[s].deleting && (s !in after || after[s].deleting) ==>
          s in slots && Owned(before[s], owner))
  }

  const DELETE_ORDER := [Policy, FrontService, HeadService, Credentials, Workload]
  const ENSURE_ORDER := [Credentials, Claim, FrontService, HeadService, Policy, Workload]
  const RETRIES := 5
  const POLLS := 110

  /** Besides what the cluster collected, only the object with this uid in this slot was deleted. */
  predicate Removed(before: Objects, after: Objects, slot: Slot, uid: Uid) {
    && (forall s :: s in after ==>
          s in before && (after[s] == before[s] || (s == slot && before[s].uid == uid
                                                    && after[s] == before[s].(deleting := true))))
    && (forall s :: s in before && s !in after ==> before[s].deleting || (s == slot && before[s].uid == uid))
  }

  predicate Kept(before: Objects, after: Objects, s: Slot)
    requires s in after
  {
    s in before && after[s] == before[s]
  }

  /** An object that was not there, or was being deleted, is there anew and is the owner's. */
  predicate Renewed(before: Objects, after: Objects, s: Slot, owner: Owner)
    requires s in after
  {
    !after[s].deleting && after[s].owner == owner && (s in before ==> before[s].deleting)
  }

  /** What a write of an object leaves: a lasting one stays, and a new one comes only where and if it was written. */
  predicate Placed(before: Objects, after: Objects, slot: Slot, owner: Owner, done: bool) {
    && (forall s :: s in before && !before[s].deleting ==> s in after && after[s] == before[s])
    && (forall s :: s in after && s != slot ==> s in before && after[s] == before[s])
    && (slot in after ==> Kept(before, after, slot) || (done && Renewed(before, after, slot, owner)))
    && (done ==> slot in after && after[slot].owner == owner)
  }

  /** The object with this uid is gone or going. */
  predicate Going(objects: Objects, slot: Slot, uid: Uid) {
    slot in objects && objects[slot].uid == uid ==> objects[slot].deleting
  }

  /** Nothing in this slot is being deleted. */
  predicate Lasting(objects: Objects, s: Slot) { s in objects ==> !objects[s].deleting }

  /** An ensure that stops before the workload leaves objects that nothing vouches for. */
  lemma StoppedEnsureIsUnvouched(r: Resource)
    ensures !Vouched(map[Credentials := r])
  {
    assert Credentials in Survivors(map[Credentials := r]);
  }

  lemma EverySlot(s: Slot)
    ensures s in SUPPORT || s == Workload || s == Claim
    ensures s == Claim || s in DELETE_ORDER
  {
    assert DELETE_ORDER[0] == Policy && DELETE_ORDER[1] == FrontService && DELETE_ORDER[2] == HeadService
        && DELETE_ORDER[3] == Credentials && DELETE_ORDER[4] == Workload;
  }

  lemma EnsureIndex(s: Slot) returns (j: nat)
    ensures j < |ENSURE_ORDER| && ENSURE_ORDER[j] == s
  {
    match s
    case Credentials => j := 0;
    case Claim => j := 1;
    case FrontService => j := 2;
    case HeadService => j := 3;
    case Policy => j := 4;
    case Workload => j := 5;
  }

  /** The first `i` objects of the list are written; the workload only after all others. */
  predicate Ensured(before: Objects, after: Objects, i: nat, owner: Owner)
    requires i <= |ENSURE_ORDER|
  {
    && (forall s :: s in before && !before[s].deleting ==> s in after && after[s] == before[s])
    && (forall s :: s in after ==> Kept(before, after, s) || Renewed(before, after, s, owner))
    && (i < 6 && Workload in after ==> Kept(before, after, Workload))
    && (forall j :: 0 <= j < i && Lasting(before, ENSURE_ORDER[j]) ==> Stands(after, ENSURE_ORDER[j], owner))
  }

  predicate Stands(objects: Objects, s: Slot, owner: Owner) {
    s in objects && !objects[s].deleting && objects[s].owner == owner
  }

  lemma EnsuredNext(before: Objects, mid: Objects, after: Objects, i: nat, owner: Owner, done: bool)
    requires i < |ENSURE_ORDER| && Ensured(before, mid, i, owner) && Placed(mid, after, ENSURE_ORDER[i], owner, done)
    ensures Ensured(before, after, i + if done then 1 else 0, owner)
  {
    assert ENSURE_ORDER[i] == Workload ==> i == 5;
    forall j | 0 <= j < i && Lasting(before, ENSURE_ORDER[j]) ensures Stands(after, ENSURE_ORDER[j], owner) {
      assert Stands(mid, ENSURE_ORDER[j], owner);
    }
  }

  lemma SurvivorsShrink(before: Objects, after: Objects)
    requires forall s :: s in after ==> s in before
    ensures Survivors(after) <= Survivors(before)
  {
  }

  /** One more object of the owner deleted, after the cluster went on. */
  lemma DeletedThen(a: Objects, b: Objects, c: Objects, d: Objects, slot: Slot, uid: Uid, owner: Owner)
    requires Deleted(a, b, SUPPORT + {Workload}, owner) && Collected(b, c) && Removed(c, d, slot, uid)
    requires slot in c && c[slot].uid == uid && Owned(c[slot], owner) && slot != Claim
    ensures Deleted(a, d, SUPPORT + {Workload}, owner)
  {
    EverySlot(slot);
  }

  /** The workload goes on vouching, if only its turn comes when nothing else is left. */
  lemma VouchedThen(b: Objects, c: Objects, d: Objects, slot: Slot, uid: Uid)
    requires Vouched(b) && Collected(b, c) && Removed(c, d, slot, uid) && (slot == Workload ==> Survivors(b) == {})
    ensures Vouched(d)
  {
    SurvivorsShrink(b, d);
  }

  class Driver {
    var objects: Objects
    var replicas: nat
    var marker: Option<string> // on the workload's pod template
    var pod: Option<Pod>
    var issued: Uid // every uid so far is below it
    ghost var killed: set<Uid> // pods whose deletion was asked for since the operation at hand began
    ghost var waits: nat // awaits so far
    ghost var cuts: nat // those at which a run was cut short
    ghost var clashes: nat // writes refused for a conflict

    constructor ()
      ensures Valid() && objects == map[] && pod == None && killed == {}
    {
      objects, replicas, marker, pod, issued := map[], 0, None, None, 0;
      killed, waits, cuts, clashes := {}, 0, 0, 0;
    }

    ghost predicate Valid()
      reads this
    {
      && (pod.Some? ==> pod.value.uid < issued) && (forall u :: u in killed ==> u < issued)
      && forall s :: s in objects ==> objects[s].uid < issued
    }

    /** The pod is the one it was, or none, or new. */
    twostate predicate PodStays()
      reads this
    {
      && old(issued) <= issued
      && (pod.Some? && pod.value.uid < old(issued) ==>
            old(pod).Some? && pod.value.uid == old(pod).value.uid && pod.value.marker == old(pod).value.marker
            && pod.value.owner == old(pod).value.owner)
    }

    /** A new pod is made from the template as it stands. */
    twostate predicate PodFollows()
      reads this
    {
      PodStays() && (pod.Some? && pod.value.uid >= old(issued) ==> pod.value.marker == marker)
    }

    /** What the cluster does by itself: collect deleted objects, and take, replace or change the pod. */
    twostate predicate Evolves()
      reads this
    {
      && Collected(old(objects), objects) && replicas == old(replicas) && marker == old(marker) && killed == old(killed)
      && PodFollows()
    }

    /**
     Why a run ends without being done: interrupted exactly if an await was cut short, in conflict only after five
     refused writes in a row, and timed out only after 110 polls.
     */
    twostate predicate ForCause(outcome: Outcome)
      reads this
    {
      && waits >= old(waits) && clashes >= old(clashes) && cuts >= old(cuts)
      && (outcome == Interrupted <==> cuts > old(cuts))
      && (outcome == Conflicted ==> clashes >= old(clashes) + 5)
      && (outcome == TimedOut ==> waits >= old(waits) + 110)
    }

    /** Nothing has gone wrong so far. */
    twostate predicate Unhurt()
      reads this
    {
      waits >= old(waits) && clashes >= old(clashes) && cuts == old(cuts)
    }

    /**
     An await: the run may be cut short here, deleted objects may be collected, and the pod may go, be
     replaced or change.
     */
    method Await() returns (go: bool)
      requires Valid()
      modifies this
      ensures Valid() && Evolves()
      ensures waits == old(waits) + 1 && clashes == old(clashes) && cuts == old(cuts) + if go then 0 else 1
    {
      go := *;
      var gone: set<Slot> := *;
      objects := map s | s in objects && !(s in gone && objects[s].deleting) :: objects[s];
      var next: Option<Pod> := *;
      if next == None {
        pod := None;
      } else if pod.Some? && next.value.uid == pod.value.uid {
        pod := Some(pod.value.(running := next.value.running, unschedulable := next.value.unschedulable));
      } else {
        pod := Some(next.value.(uid := issued, marker := marker));
        issued := issued + 1;
      }
      waits, cuts := waits + 1, cuts + if go then 0 else 1;
    }

    method Read(slot: Slot) returns (go: bool, r: Option<Resource>)
      requires Valid()
      modifies this
      ensures Valid() && Evolves() && r == if slot in objects then Some(objects[slot]) else None
      ensures waits == old(waits) + 1 && clashes == old(clashes) && cuts == old(cuts) + if go then 0 else 1
    {
      go := Await();
      r := if slot in objects then Some(objects[slot]) else None;
    }

    /** Whether a write is refused because the object has changed since it was read. */
    method Clash() returns (conflict: bool)
      modifies this`clashes
      ensures clashes == old(clashes) + if conflict then 1 else 0
    {
      conflict := *;
      clashes := clashes + if conflict then 1 else 0;
    }

    /** Gets a write to an existing object through, reading it anew after each conflict. */
    method Patch(slot: Slot) returns (outcome: Outcome)
      requires Valid()
      modifies this
      ensures Valid() && Evolves() && ForCause(outcome) && outcome in {Done, Interrupted, NotFound, Conflicted}
      ensures outcome == NotFound ==> slot !in objects
      ensures outcome == Done ==> slot in objects
    {
      var attempt := 0;
      while attempt < RETRIES
        invariant 0 <= attempt <= RETRIES && Valid() && Evolves() && Unhurt() && clashes == old(clashes) + attempt
      {
        var go, current := Read(slot);
        if !go { return Interrupted; }
        if current.None? { return NotFound; }
        var conflict := Clash();
        if !conflict { return Done; }
        attempt := attempt + 1;
      }
      outcome := Conflicted;
    }

    // --- put and ensure ---

    /** Creates an object, or updates one this owner has; a claim is never updated. */
    method Put(slot: Slot, owner: Owner) returns (outcome: Outcome)
      requires Valid()
      modifies this
      ensures Valid() && marker == old(marker) && killed == old(killed) && ForCause(outcome)
      ensures Placed(old(objects), objects, slot, owner, outcome == Done)
      ensures outcome == Mismatch ==> slot in old(objects) && slot in objects && !Owned(objects[slot], owner)
      ensures outcome == NotFound ==> slot in old(objects) && old(objects)[slot].deleting && slot !in objects
      ensures outcome in {Done, Interrupted, Mismatch, NotFound, Conflicted}
    {
      var attempt := 0;
      while attempt < RETRIES
        invariant 0 <= attempt <= RETRIES && Valid() && Collected(old(objects), objects)
        invariant marker == old(marker) && killed == old(killed) && Unhurt() && clashes >= old(clashes) + attempt
      {
        outcome := PutOnce(slot, owner);
        if outcome != Conflicted { return; }
        attempt := attempt + 1;
      }
      outcome := Conflicted;
    }

    method PutOnce(slot: Slot, owner: Owner) returns (outcome: Outcome)
      requires Valid()
      modifies this
      ensures Valid() && marker == old(marker) && killed == old(killed)
      ensures waits >= old(waits) && cuts >= old(cuts) && (outcome == Interrupted <==> cuts > old(cuts))
      ensures clashes >= old(clashes) + if outcome == Conflicted then 1 else 0
      ensures if outcome == Done then Placed(old(objects), objects, slot, owner, true)
              else Collected(old(objects), objects)
      ensures outcome == Mismatch ==> slot in old(objects) && slot in objects && !Owned(objects[slot], owner)
      ensures outcome == NotFound ==> slot in old(objects) && old(objects)[slot].deleting && slot !in objects
      ensures outcome in {Done, Interrupted, Mismatch, NotFound, Conflicted}
    {
      var go, current := Read(slot);
      if !go { return Interrupted; }
      if current.None? {
        var conflict := Clash();
        if conflict { return Conflicted; }
        objects := objects[slot := Resource(issued, owner, false)];
        issued := issued + 1;
        return Done;
      }
      if !Owned(current.value, owner) { return Mismatch; }
      if slot == Claim { return Done; }
      outcome := Patch(slot);
    }

    /**
     Writes the objects in order, the workload last, so that a new workload finds everything else in place. An
     object that a delete has left behind may still be collected, even after it was written; every other one is
     there, and the owner's, when this is done.
     */
    method Ensure(owner: Owner) returns (outcome: Outcome)
      requires Valid()
      modifies this
      ensures Valid() && marker == old(marker) && killed == old(killed) && ForCause(outcome)
      ensures forall s :: s in old(objects) && !old(objects)[s].deleting ==>
                s in objects && objects[s] == old(objects)[s]
      ensures forall s :: s in objects ==> Kept(old(objects), objects, s) || Renewed(old(objects), objects, s, owner)
      ensures outcome == Done || (Workload in objects && !Kept(old(objects), objects, Workload)) ==>
                forall s: Slot :: Lasting(old(objects), s) && (outcome == Done || s != Workload) ==>
                  Stands(objects, s, owner)
      ensures outcome == Done && (forall s: Slot :: Lasting(old(objects), s)) ==>
                forall s: Slot :: Stands(objects, s, owner)
      ensures outcome == Mismatch ==> exists s :: s in objects && !Owned(objects[s], owner)
      ensures outcome in {Done, Interrupted, Mismatch, NotFound, Conflicted}
    {
      var i := 0;
      while i < |ENSURE_ORDER|
        invariant 0 <= i <= |ENSURE_ORDER| && Valid() && marker == old(marker) && killed == old(killed) && Unhurt()
        invariant Ensured(old(objects), objects, i, owner)
      {
        ghost var mid := objects;
        outcome := Put(ENSURE_ORDER[i], owner);
        EnsuredNext(old(objects), mid, objects, i, owner, outcome == Done);
        if outcome != Done { return; }
        i := i + 1;
      }
      outcome := Done;
      forall s: Slot | Lasting(old(objects), s) ensures Stands(objects, s, owner) { var j := EnsureIndex(s); }
    }

    // --- scale, start and stop ---

    method Scale(n: nat) returns (outcome: Outcome)
      requires Valid()
      modifies this
      ensures Valid() && Collected(old(objects), objects) && marker == old(marker) && killed == old(killed)
      ensures PodFollows() && ForCause(outcome)
      ensures outcome in {Done, Interrupted, NotFound, Conflicted}
      ensures replicas == if outcome == Done then n else old(replicas)
      ensures outcome == NotFound ==> Workload !in objects
    {
      var go, workload := Read(Workload);
      if !go { return Interrupted; }
      if workload.None? { return NotFound; }
      outcome := Patch(Workload);
      if outcome == Done { replicas := n; }
    }

    method Stop() returns (outcome: Outcome)
      requires Valid()
      modifies this
      ensures Valid() && Collected(old(objects), objects) && marker == old(marker) && killed == old(killed)
      ensures PodFollows() && ForCause(outcome)
      ensures outcome in {Done, Interrupted, NotFound, Conflicted, TimedOut}
      ensures outcome in {Done, TimedOut} ==> replicas == 0
      ensures outcome == Done ==> pod == None
      ensures outcome == NotFound ==> Workload !in objects
    {
      outcome := Scale(0);
      if outcome != Done { return; }
      var poll := 0;
      while poll < POLLS
        invariant 0 <= poll <= POLLS && Valid() && Collected(old(objects), objects) && marker == old(marker)
        invariant killed == old(killed) && replicas == 0 && PodFollows() && Unhurt() && waits >= old(waits) + poll
      {
        poll := poll + 1;
        var go := Await();
        if !go { return Interrupted; }
        if pod == None { return Done; }
      }
      outcome := TimedOut;
    }

    method Start() returns (outcome: Outcome)
      requires Valid()
      modifies this
      ensures Valid() && Collected(old(objects), objects) && marker == old(marker) && killed == old(killed)
      ensures PodFollows() && ForCause(outcome)
      ensures outcome in {Done, Interrupted, NotFound, Conflicted, TimedOut}
      ensures outcome in {Done, TimedOut} ==> replicas == 1
      ensures outcome == Done ==> pod.Some? && pod.value.running
      ensures outcome == NotFound ==> Workload !in objects
    {
      outcome := Scale(1);
      if outcome != Done { return; }
      outcome := AwaitRunning();
    }

    /** Polls until the pod runs. */
    method AwaitRunning() returns (outcome: Outcome)
      requires Valid()
      modifies this
      ensures Valid() && Evolves() && ForCause(outcome) && outcome in {Done, Interrupted, TimedOut}
      ensures outcome == Done ==> pod.Some? && pod.value.running
    {
      var poll := 0;
      while poll < POLLS
        invariant 0 <= poll <= POLLS && Valid() && Evolves() && Unhurt() && waits >= old(waits) + poll
      {
        poll := poll + 1;
        var go := Await();
        if !go { return Interrupted; }
        if pod.Some? && pod.value.running { return Done; }
      }
      outcome := TimedOut;
    }

    // --- remove, delete and deleteData ---

    /** Asks for the deletion of the object with this uid, unless another took its place, and waits until it is gone. */
    method Remove(slot: Slot, uid: Uid) returns (outcome: Outcome)
      requires Valid()
      modifies this
      ensures Valid() && Removed(old(objects), objects, slot, uid) && marker == old(marker) && killed == old(killed)
      ensures ForCause(outcome) && outcome in {Done, Interrupted, Conflicted, TimedOut}
      ensures outcome == Done ==> !(slot in objects && objects[slot].uid == uid)
      ensures outcome == TimedOut ==> Going(objects, slot, uid)
    {
      outcome := AskRemoval(slot, uid);
      if outcome != Done { return; }
      var poll := 0;
      while poll < POLLS
        invariant 0 <= poll <= POLLS && Valid() && Removed(old(objects), objects, slot, uid)
                  && Going(objects, slot, uid)
        invariant marker == old(marker) && killed == old(killed) && Unhurt() && waits >= old(waits) + poll
      {
        poll := poll + 1;
        var go, current := Read(slot);
        if !go { return Interrupted; }
        if current.None? || current.value.uid != uid { return Done; }
      }
      outcome := TimedOut;
    }

    method AskRemoval(slot: Slot, uid: Uid) returns (outcome: Outcome)
      requires Valid()
      modifies this
      ensures Valid() && Removed(old(objects), objects, slot, uid) && marker == old(marker) && killed == old(killed)
      ensures ForCause(outcome) && outcome in {Done, Interrupted, Conflicted}
      ensures outcome == Done ==> Going(objects, slot, uid)
    {
      var attempt := 0;
      while attempt < RETRIES
        invariant 0 <= attempt <= RETRIES && Valid() && Collected(old(objects), objects)
        invariant marker == old(marker) && killed == old(killed) && Unhurt() && clashes >= old(clashes) + attempt
      {
        var go, current := Read(slot);
        if !go { return Interrupted; }
        if current.None? || current.value.uid != uid { return Done; }
        var conflict := Clash();
        if !conflict {
          objects := objects[slot := current.value.(deleting := true)];
          return Done;
        }
        attempt := attempt + 1;
      }
      outcome := Conflicted;
    }

    /**
     Deletes the workload and its supporting objects, the workload last, and keeps the claim. Wherever the run
     ends, the workload still vouches for whatever is left; so no run, and no run after it, can find objects
     without a workload. It reports that only if it began so.
     */
    method Delete() returns (outcome: Outcome)
      requires Valid()
      modifies this
      ensures Valid() && ForCause(outcome)
      ensures old(Vouched(objects)) ==> Vouched(objects)
      ensures outcome == Unavailable ==> old(!Vouched(objects))
      ensures Workload !in old(objects) && (exists s ::
                                              s in SUPPORT && s in old(objects) && !old(objects)[s].deleting) ==>
                outcome in {Interrupted, Unavailable}
      ensures outcome == Done ==> forall s :: s in objects ==> s == Claim
      ensures if Workload in old(objects) then Deleted(old(objects), objects, SUPPORT + {Workload},
                                                       old(objects)[Workload].owner)
              else Collected(old(objects), objects)
      ensures outcome == Mismatch ==>
                Workload in old(objects) && exists s ::
                      s in old(objects) && s != Claim && !Owned(old(objects)[s], old(objects)[Workload].owner)
      ensures outcome == NotFound ==>
                Workload in old(objects) && old(objects)[Workload].deleting && Workload !in objects
      ensures outcome in {Done, Interrupted, Unavailable, Mismatch, NotFound, Conflicted, TimedOut}
    {
      var go, workload := Read(Workload);
      if !go { return Interrupted; }
      if workload.None? {
        go := Await();
        if !go { return Interrupted; }
        SurvivorsShrink(old(objects), objects);
        forall s: Slot ensures s in SUPPORT || s == Workload || s == Claim { EverySlot(s); }
        assert forall s :: s in SUPPORT && s in objects ==> s in Survivors(objects);
        return if Survivors(objects) != {} then Unavailable else Done;
      }
      outcome := Stop();
      if outcome != Done { return; }
      outcome := DeleteAll(workload.value.owner);
    }

    method DeleteAll(owner: Owner) returns (outcome: Outcome)
      requires Valid()
      modifies this
      ensures Valid() && ForCause(outcome)
      ensures old(Vouched(objects)) ==> Vouched(objects)
      ensures outcome == Done ==> forall s :: s in objects ==> s == Claim
      ensures Deleted(old(objects), objects, SUPPORT + {Workload}, owner)
      ensures outcome in {Done, Interrupted, Mismatch, Conflicted, TimedOut}
      ensures outcome == Mismatch ==> exists s :: s in old(objects) && s != Claim && !Owned(old(objects)[s], owner)
    {
      var i := 0;
      while i < |DELETE_ORDER|
        invariant 0 <= i <= |DELETE_ORDER| && Valid() && Unhurt()
        invariant old(Vouched(objects)) ==> Vouched(objects)
        invariant Deleted(old(objects), objects, SUPPORT + {Workload}, owner)
        invariant forall j :: 0 <= j < i ==> DELETE_ORDER[j] !in objects
      {
        if DELETE_ORDER[i] == Workload { NoneSupport(objects, i); }
        outcome := DeleteSlot(old(objects), DELETE_ORDER[i], owner);
        if outcome != Done { return; }
        i := i + 1;
      }
      forall s | s in objects ensures s == Claim { EverySlot(s); }
      outcome := Done;
    }

    /** One object of the delete's list. */
    method DeleteSlot(ghost start: Objects, slot: Slot, owner: Owner) returns (outcome: Outcome)
      requires Valid() && Deleted(start, objects, SUPPORT + {Workload}, owner) && slot != Claim
      requires slot == Workload ==> Survivors(objects) == {}
      modifies this
      ensures Valid() && Deleted(start, objects, SUPPORT + {Workload}, owner)
              && (old(Vouched(objects)) ==> Vouched(objects))
      ensures forall s :: s in objects ==> s in old(objects)
      ensures ForCause(outcome) && outcome in {Done, Interrupted, Mismatch, Conflicted, TimedOut}
      ensures outcome == Done ==> slot !in objects
      ensures outcome == Mismatch ==> slot in start && !Owned(start[slot], owner)
    {
      var go, current := Read(slot);
      ghost var c := objects;
      SurvivorsShrink(old(objects), c);
      if !go { return Interrupted; }
      if current.None? { return Done; }
      if !Owned(current.value, owner) { return Mismatch; }
      outcome := Remove(slot, current.value.uid);
      DeletedThen(start, old(objects), c, objects, slot, current.value.uid, owner);
      if old(Vouched(objects)) { VouchedThen(old(objects), c, objects, slot, current.value.uid); }
    }

    /** Any number of runs of delete, each stopped anywhere or not: from a fully ensured runtime none is refused. */
    method DeleteAgain(times: nat, owner: Owner) returns (outcome: Outcome)
      requires Valid() && times > 0 && Vouched(objects)
      requires forall s :: s in objects && s != Claim ==> Owned(objects[s], owner)
      modifies this
      ensures Valid() && Vouched(objects)
      ensures outcome != Unavailable && outcome != Mismatch
              && (outcome == Done ==> forall s :: s in objects ==> s == Claim)
      ensures Deleted(old(objects), objects, SUPPORT + {Workload}, owner)
    {
      var k := 0;
      outcome := Interrupted;
      while k < times
        invariant Valid() && Vouched(objects) && Deleted(old(objects), objects, SUPPORT + {Workload}, owner)
        invariant outcome != Unavailable && outcome != Mismatch
                  && (outcome == Done ==> forall s :: s in objects ==> s == Claim)
      {
        ghost var before := objects;
        outcome := Delete();
        DeletedAgain(old(objects), before, objects, owner);
        k := k + 1;
      }
    }

    /** The one way to delete the claim: by its own labels if no owner is named, else by exactly the owner's. */
    method DeleteData(owner: Option<Owner>) returns (outcome: Outcome)
      requires Valid()
      modifies this
      ensures Valid() && marker == old(marker) && killed == old(killed) && ForCause(outcome)
      ensures forall s :: s in objects ==> s in old(objects) && (s != Claim ==> objects[s] == old(objects)[s])
      ensures forall s :: s in old(objects) && !old(objects)[s].deleting && s !in objects ==> s == Claim
      ensures Claim in old(objects) && !old(objects)[Claim].deleting
              && !Owned(old(objects)[Claim], if owner.Some? then owner.value else old(objects)[Claim].owner) ==>
                Claim in objects && objects[Claim] == old(objects)[Claim] && outcome in {Interrupted, Mismatch}
      ensures outcome == Done ==> Claim !in objects
      ensures outcome == Mismatch ==>
                Claim in old(objects)
                && !Owned(old(objects)[Claim], if owner.Some? then owner.value else old(objects)[Claim].owner)
      ensures outcome in {Done, Interrupted, Mismatch, Conflicted, TimedOut}
    {
      var go, claim := Read(Claim);
      if !go { return Interrupted; }
      if claim.None? { return Done; }
      if !Owned(claim.value, if owner.Some? then owner.value else claim.value.owner) { return Mismatch; }
      outcome := Remove(Claim, claim.value.uid);
    }

    // --- restart ---

    /** At most one pod was deleted for the operation; then the template bears its mark, and so does any other pod. */
    ghost predicate Marked(operation: string)
      reads this
    {
      killed != {} ==>
        && marker == Some(operation)
        && exists u :: killed == {u} && (pod.Some? && pod.value.uid != u ==> pod.value.marker == Some(operation))
    }

    /** The cluster by itself keeps that, and so does marking the template. */
    twostate lemma StaysMarked(operation: string)
      requires old(Valid()) && old(Marked(operation)) && killed == old(killed) && PodStays()
      requires marker in {old(marker), Some(operation)}
      requires pod.Some? && pod.value.uid >= old(issued) ==> pod.value.marker in {old(marker), Some(operation)}
      ensures Marked(operation)
    {
      if killed != {} {
        var u :| old(killed) == {u} && (old(pod).Some? && old(pod).value.uid != u ==>
                                          old(pod).value.marker == Some(operation));
        assert u in old(killed);
      }
    }

    /** Sets the mark on the workload's template. */
    method Mark(value: Option<string>) returns (outcome: Outcome)
      requires Valid()
      modifies this
      ensures Valid() && Collected(old(objects), objects) && killed == old(killed) && PodStays() && ForCause(outcome)
      ensures pod.Some? && pod.value.uid >= old(issued) ==> pod.value.marker == old(marker)
      ensures outcome in {Done, Interrupted, NotFound, Conflicted}
      ensures marker == if outcome == Done then value else old(marker)
      ensures outcome == NotFound ==> Workload !in objects
    {
      outcome := Patch(Workload);
      if outcome == Done { marker := value; }
    }

    /** Asks for the deletion of the pod with this uid, unless another took its place, and waits until it is gone. */
    method RemovePod(uid: Uid) returns (outcome: Outcome)
      requires Valid() && uid < issued
      modifies this
      ensures Valid() && Collected(old(objects), objects) && marker == old(marker) && PodFollows() && ForCause(outcome)
      ensures old(killed) <= killed <= old(killed) + {uid}
      ensures killed != old(killed) ==> old(pod).Some? && old(pod).value.uid == uid
      ensures outcome in {Done, Interrupted, Conflicted, TimedOut}
      ensures outcome == Done ==> !(pod.Some? && pod.value.uid == uid)
      ensures outcome == TimedOut ==> uid in killed
    {
      outcome := AskPodRemoval(uid);
      if outcome != Done { return; }
      ghost var asked := killed;
      var poll := 0;
      while poll < POLLS
        invariant 0 <= poll <= POLLS && Valid() && Collected(old(objects), objects) && marker == old(marker)
        invariant PodFollows() && Unhurt() && waits >= old(waits) + poll && killed == asked
        invariant poll == POLLS || (pod.Some? && pod.value.uid == uid) ==> uid in killed
      {
        poll := poll + 1;
        var go := Await();
        if !go { return Interrupted; }
        if pod.None? || pod.value.uid != uid { return Done; }
      }
      outcome := TimedOut;
    }

    method AskPodRemoval(uid: Uid) returns (outcome: Outcome)
      requires Valid() && uid < issued
      modifies this
      ensures Valid() && Collected(old(objects), objects) && marker == old(marker) && PodFollows() && ForCause(outcome)
      ensures old(killed) <= killed <= old(killed) + {uid}
      ensures killed != old(killed) ==> old(pod).Some? && old(pod).value.uid == uid
      ensures outcome in {Done, Interrupted, Conflicted}
      ensures outcome == Done && pod.Some? && pod.value.uid == uid ==> uid in killed
    {
      var attempt := 0;
      while attempt < RETRIES
        invariant 0 <= attempt <= RETRIES && Valid() && Evolves() && Unhurt() && clashes >= old(clashes) + attempt
      {
        var go := Await();
        if !go { return Interrupted; }
        if pod.None? || pod.value.uid != uid { return Done; }
        var conflict := Clash();
        if !conflict {
          killed := killed + {uid};
          return Done;
        }
        attempt := attempt + 1;
      }
      outcome := Conflicted;
    }

    /** The pod cannot be placed, or 110 polls have passed without it running. */
    twostate predicate Rejected()
      reads this
    {
      waits >= old(waits) + 110 || (pod.Some? && pod.value.unschedulable && !pod.value.running)
    }

    /** Waits for the pod that replaced `uid` to run, and gives up when it cannot be scheduled. */
    method WaitForReplacement(uid: Uid) returns (outcome: Outcome, replaced: bool)
      requires Valid()
      modifies this
      ensures Valid() && Evolves() && ForCause(outcome) && outcome in {Done, Interrupted}
      ensures outcome == Done && replaced ==> pod.Some? && pod.value.uid != uid && pod.value.running
      ensures outcome == Done && !replaced ==> Rejected()
    {
      var poll := 0;
      while poll < POLLS
        invariant 0 <= poll <= POLLS && Valid() && Evolves() && Unhurt() && waits >= old(waits) + poll
      {
        poll := poll + 1;
        var go := Await();
        if !go { return Interrupted, false; }
        if pod.Some? && pod.value.uid != uid {
          if pod.value.running { return Done, true; }
          if pod.value.unschedulable { return Done, false; }
        }
      }
      return Done, false;
    }

    /** A pod runs that is not the one from before, unless that one bears the mark. */
    twostate predicate RolledOut(operation: string)
      reads this
    {
      && marker == Some(operation) && pod.Some? && pod.value.running
      && (old(pod).Some? && pod.value.uid == old(pod).value.uid ==> pod.value.marker == Some(operation))
    }

    /**
     Marks the template and replaces the pod, unless it bears the mark already. When done, another pod runs, or
     one that bears the mark; it asks for a restore only if the new pod does not run.
     */
    method RollOut(operation: string) returns (outcome: Outcome, restore: bool)
      requires Valid() && Marked(operation)
      modifies this
      ensures Valid() && Marked(operation) && ForCause(outcome)
      ensures outcome == Done && !restore ==> RolledOut(operation)
      ensures restore ==> outcome == Done && marker == Some(operation) && Rejected()
      ensures outcome == NotFound ==> Workload !in objects
      ensures outcome in {Done, Interrupted, NotFound, Conflicted, TimedOut, Mismatch}
    {
      restore := false;
      var go, workload := Read(Workload);
      StaysMarked(operation);
      if !go { return Interrupted, false; }
      if workload.None? { return NotFound, false; }
      go := Await();
      StaysMarked(operation);
      var found := pod;
      if !go { return Interrupted, false; }
      assert found.Some? && found.value.marker != Some(operation) ==> killed <= {found.value.uid};
      outcome := MarkFor(operation);
      if outcome != Done { return; }
      if found.None? || found.value.marker == Some(operation) {
        outcome := StartMarked(operation);
        return;
      }
      if !(found.value.owner == workload.value.owner && Owned(workload.value, workload.value.owner)) {
        return Mismatch, false;
      }
      outcome, restore := ReplacePod(found.value.uid, operation);
    }

    method MarkFor(operation: string) returns (outcome: Outcome)
      requires Valid() && Marked(operation)
      modifies this
      ensures Valid() && Marked(operation) && killed == old(killed) && PodStays() && ForCause(outcome)
      ensures outcome in {Done, Interrupted, NotFound, Conflicted} && (outcome == Done ==> marker == Some(operation))
      ensures outcome == NotFound ==> Workload !in objects
    {
      outcome := Mark(Some(operation));
      StaysMarked(operation);
    }

    method StartMarked(operation: string) returns (outcome: Outcome)
      requires Valid() && Marked(operation)
      modifies this
      ensures Valid() && Marked(operation) && marker == old(marker) && PodFollows() && ForCause(outcome)
      ensures outcome in {Done, Interrupted, NotFound, Conflicted, TimedOut}
      ensures outcome == Done ==> pod.Some? && pod.value.running
      ensures outcome == NotFound ==> Workload !in objects
    {
      outcome := Start();
      StaysMarked(operation);
    }

    /** Deletes the pod with this uid and waits for another to run. */
    method ReplacePod(uid: Uid, operation: string) returns (outcome: Outcome, restore: bool)
      requires Valid() && Marked(operation) && marker == Some(operation) && killed <= {uid} && uid < issued
      modifies this
      ensures Valid() && Marked(operation) && marker == old(marker) && PodFollows() && ForCause(outcome)
      ensures outcome == Done && !restore ==> pod.Some? && pod.value.uid != uid && pod.value.running
      ensures restore ==> outcome == Done && Rejected()
      ensures outcome in {Done, Interrupted, Conflicted, TimedOut}
    {
      restore := false;
      outcome := RemovePod(uid);
      if killed == old(killed) { StaysMarked(operation); }
      if outcome != Done { return; }
      outcome, restore := WaitMarked(uid, operation);
    }

    method WaitMarked(uid: Uid, operation: string) returns (outcome: Outcome, restore: bool)
      requires Valid() && Marked(operation)
      modifies this
      ensures Valid() && Marked(operation) && Evolves() && ForCause(outcome) && outcome in {Done, Interrupted}
      ensures outcome == Done && !restore ==> pod.Some? && pod.value.uid != uid && pod.value.running
      ensures restore ==> outcome == Done && Rejected()
    {
      var replaced;
      outcome, replaced := WaitForReplacement(uid);
      StaysMarked(operation);
      restore := outcome == Done && !replaced;
    }

    /** Puts the old mark and size back on the template and removes the pod that could not be placed. */
    method Restore(previous: Option<string>) returns (outcome: Outcome)
      requires Valid()
      modifies this
      ensures Valid() && ForCause(outcome)
      ensures outcome in {Interrupted, NotFound, Conflicted, TimedOut, Mismatch, Rescheduled(true), Rescheduled(false)}
      ensures outcome == Rescheduled(true) ==> marker == previous && pod.Some? && pod.value.running
      ensures outcome == Rescheduled(false) ==>
                Workload !in objects || (marker == previous && waits >= old(waits) + 110)
      ensures outcome == NotFound ==> Workload !in objects
    {
      var go, workload := Read(Workload);
      if !go { return Interrupted; }
      if workload.None? { return Rescheduled(false); }
      outcome := Mark(previous);
      if outcome != Done { return; }
      go := Await();
      if !go { return Interrupted; }
      if pod.Some? {
        if !(pod.value.owner == workload.value.owner && Owned(workload.value, workload.value.owner)) {
          return Mismatch;
        }
        outcome := RemovePod(pod.value.uid);
        if outcome != Done { return; }
      }
      outcome := AwaitRunning();
      if outcome != Interrupted { outcome := Rescheduled(outcome == Done); }
    }

    /**
     One run of a restart. Until it has to fall back to the old template, it keeps the mark's promise wherever
     it ends; when done, another pod runs, or one that bears the mark.
     */
    method Restart(operation: string) returns (outcome: Outcome, fellBack: bool)
      requires Valid() && Marked(operation)
      modifies this
      ensures Valid() && (!fellBack ==> Marked(operation)) && ForCause(outcome)
      ensures outcome == Done ==> !fellBack && RolledOut(operation)
      ensures outcome == Rescheduled(true) ==> marker == old(marker) && pod.Some? && pod.value.running
      ensures outcome.Rescheduled? ==> fellBack
      ensures outcome == NotFound ==> Workload !in objects
    {
      var previous := marker;
      outcome, fellBack := RollOut(operation);
      if fellBack { outcome := Restore(previous); }
    }

    /** Any number of runs of one restart, stopped anywhere: until one falls back, at most one pod is deleted. */
    method RestartAgain(operation: string, times: nat) returns (fellBack: bool)
      requires Valid() && killed == {}
      modifies this
      ensures Valid() && (!fellBack ==> |killed| <= 1)
    {
      fellBack := false;
      var k := 0;
      while k < times && !fellBack
        invariant Valid() && (!fellBack ==> Marked(operation))
      {
        var outcome;
        outcome, fellBack := Restart(operation);
        k := k + 1;
      }
    }
  }

  lemma DeletedAgain(a: Objects, b: Objects, c: Objects, owner: Owner)
    requires Deleted(a, b, SUPPORT + {Workload}, owner)
    requires if Workload in b then Deleted(b, c, SUPPORT + {Workload}, b[Workload].owner) else Collected(b, c)
    requires forall s :: s in a && s != Claim ==> Owned(a[s], owner)
    ensures Deleted(a, c, SUPPORT + {Workload}, owner)
  {
  }

  lemma NoneSupport(objects: Objects, i: nat)
    requires i < |DELETE_ORDER| && DELETE_ORDER[i] == Workload && forall j :: 0 <= j < i ==> DELETE_ORDER[j] !in objects
    ensures Survivors(objects) == {}
  {
    assert i == 4 && DELETE_ORDER[0] == Policy && DELETE_ORDER[1] == FrontService && DELETE_ORDER[2] == HeadService
        && DELETE_ORDER[3] == Credentials;
  }
}
