/** The agent's journal as a value, whatever payloads are: what recording an event does to the entries. */
module Journal {
  import opened Wrappers

  datatype Entry<!K(==), +P> = Entry(receipt: Option<P>, effects: map<K, P>, result: Option<P>)

  datatype Event<+K, +P> =
    | ReceiptEvent(id: K, data: P)
    | EffectEvent(id: K, effect: K, data: P)
    | ResultEvent(id: K, data: P)

  datatype Refusal = DifferentPayload | ReceiptFirst | AfterResult | EffectFirst

  /** `same` decides whether two payloads are the same one, and `failed` whether a result says so. */
  datatype Rules<!P> = Rules(same: (P, P) -> bool, failed: P -> bool)

  function EntryOf<K(==), P>(entries: map<K, Entry<K, P>>, id: K): Entry<K, P> {
    if id in entries then entries[id] else Entry(None, map[], None)
  }

  /** A payload is kept if it is the first or the same as the first. */
  function Keep<P>(rules: Rules<P>, existing: Option<P>, data: P): Result<P, Refusal> {
    match existing
    case None => Ok(data)
    case Some(first) => if rules.same(first, data) then Ok(first) else Err(DifferentPayload)
  }

  function ApplyTo<K(==), P>(rules: Rules<P>, entry: Entry<K, P>, ev: Event<K, P>): Result<Entry<K, P>, Refusal> {
    match ev
    case ReceiptEvent(_, data) =>
      var kept := Keep(rules, entry.receipt, data);
      if kept.Err? then Err(kept.error) else Ok(entry.(receipt := Some(kept.value)))
    case EffectEvent(_, effect, data) =>
      if entry.receipt == None then Err(ReceiptFirst)
      else if entry.result != None then Err(AfterResult)
      else
        var kept := Keep(rules, if effect in entry.effects then Some(entry.effects[effect]) else None, data);
        if kept.Err? then Err(kept.error) else Ok(entry.(effects := entry.effects[effect := kept.value]))
    case ResultEvent(_, data) =>
      if entry.receipt == None then Err(ReceiptFirst)
      else if entry.effects == map[] && !rules.failed(data) then Err(EffectFirst)
      else
        var kept := Keep(rules, entry.result, data);
        if kept.Err? then Err(kept.error) else Ok(entry.(result := Some(kept.value)))
  }

  function Apply<K(==), P>(rules: Rules<P>, entries: map<K, Entry<K, P>>, ev: Event<K, P>)
      : Result<map<K, Entry<K, P>>, Refusal>
  {
    var entry := ApplyTo(rules, EntryOf(entries, ev.id), ev);
    if entry.Err? then Err(entry.error) else Ok(entries[ev.id := entry.value])
  }

  /** The entries after some events, or the first refusal. */
  function Fold<K(==), P>(rules: Rules<P>, events: seq<Event<K, P>>): Result<map<K, Entry<K, P>>, Refusal> {
    if events == [] then Ok(map[])
    else
      var before := Fold(rules, events[..|events| - 1]);
      if before.Err? then before else Apply(rules, before.value, events[|events| - 1])
  }

  lemma {:induction false} FoldPrefix<K, P>(rules: Rules<P>, events: seq<Event<K, P>>, n: nat)
    requires n <= |events| && Fold(rules, events).Ok?
    ensures Fold(rules, events[..n]).Ok?
    decreases |events|
  {
    if n < |events| {
      FoldPrefix(rules, events[..|events| - 1], n);
      assert events[..|events| - 1][..n] == events[..n];
    } else {
      assert events[..n] == events;
    }
  }

  lemma FoldSnoc<K, P>(rules: Rules<P>, events: seq<Event<K, P>>, ev: Event<K, P>)
    requires Fold(rules, events).Ok?
    ensures Fold(rules, events + [ev]) == Apply(rules, Fold(rules, events).value, ev)
  {
    assert (events + [ev])[..|events|] == events;
  }

  // --- payloads are written once ---

  /** Everything `a` has, `b` has unchanged. */
  ghost predicate Extends<K, P>(b: Entry<K, P>, a: Entry<K, P>) {
    && (a.receipt.Some? ==> b.receipt == a.receipt)
    && (forall k :: k in a.effects ==> k in b.effects && b.effects[k] == a.effects[k])
    && (a.result.Some? ==> b.result == a.result)
  }

  lemma ApplyExtends<K, P>(rules: Rules<P>, entries: map<K, Entry<K, P>>, ev: Event<K, P>, id: K)
    requires Apply(rules, entries, ev).Ok?
    ensures Extends(EntryOf(Apply(rules, entries, ev).value, id), EntryOf(entries, id))
  {
  }

  /** Whatever is recorded later, a receipt, effect or result once recorded stays what it was. */
  lemma {:induction false} RecordsAreWrittenOnce<K, P>(rules: Rules<P>, events: seq<Event<K, P>>, n: nat, id: K)
    requires n <= |events| && Fold(rules, events).Ok?
    ensures Fold(rules, events[..n]).Ok?
    ensures Extends(EntryOf(Fold(rules, events).value, id), EntryOf(Fold(rules, events[..n]).value, id))
    decreases |events|
  {
    FoldPrefix(rules, events, n);
    if n < |events| {
      var k := |events| - 1;
      RecordsAreWrittenOnce(rules, events[..k], n, id);
      assert events[..k][..n] == events[..n];
      ApplyExtends(rules, Fold(rules, events[..k]).value, events[k], id);
    } else {
      assert events[..n] == events;
    }
  }

  /** A result is preceded by a receipt, and by an effect unless it says the operation failed. */
  ghost predicate Ordered<K, P>(rules: Rules<P>, e: Entry<K, P>) {
    && (e.effects != map[] || e.result.Some? ==> e.receipt.Some?)
    && (e.result.Some? ==> e.effects != map[] || rules.failed(e.result.value))
  }

  lemma {:induction false} EntriesAreOrdered<K, P>(rules: Rules<P>, events: seq<Event<K, P>>, id: K)
    requires Fold(rules, events).Ok?
    ensures Ordered(rules, EntryOf(Fold(rules, events).value, id))
  {
    if events != [] {
      var k := |events| - 1;
      EntriesAreOrdered(rules, events[..k], id);
      EntriesAreOrdered(rules, events[..k], events[k].id);
    }
  }

  // --- what the entries hold, read off the log ---

  /** The places of an entry that a payload can be recorded in. */
  datatype Slot<+K> = ReceiptSlot(id: K) | EffectSlot(id: K, effect: K) | ResultSlot(id: K)

  predicate Fills<K(==), P>(ev: Event<K, P>, slot: Slot<K>) {
    match slot
    case ReceiptSlot(id) => ev.ReceiptEvent? && ev.id == id
    case EffectSlot(id, effect) => ev.EffectEvent? && ev.id == id && ev.effect == effect
    case ResultSlot(id) => ev.ResultEvent? && ev.id == id
  }

  /** The data of the first event for a slot. */
  function First<K(==), P>(events: seq<Event<K, P>>, slot: Slot<K>): Option<P> {
    if events == [] then None
    else if Fills(events[0], slot) then Some(events[0].data)
    else First(events[1..], slot)
  }

  function Held<K(==), P>(entries: map<K, Entry<K, P>>, slot: Slot<K>): Option<P> {
    if slot.id !in entries then None
    else
      match slot
      case ReceiptSlot(id) => entries[id].receipt
      case EffectSlot(id, effect) =>
        if effect in entries[id].effects then Some(entries[id].effects[effect]) else None
      case ResultSlot(id) => entries[id].result
  }

  lemma {:induction false} FirstSnoc<K, P>(events: seq<Event<K, P>>, ev: Event<K, P>, slot: Slot<K>)
    ensures var first := First(events, slot);
            First(events + [ev], slot) == if first.Some? then first else if Fills(ev, slot) then Some(ev.data) else None
  {
    if events == [] {
      assert events + [ev] == [ev];
    } else {
      assert (events + [ev])[1..] == events[1..] + [ev];
      FirstSnoc(events[1..], ev, slot);
    }
  }

  lemma ApplyHolds<K, P>(rules: Rules<P>, entries: map<K, Entry<K, P>>, ev: Event<K, P>, slot: Slot<K>)
    requires Apply(rules, entries, ev).Ok?
    ensures var held := Held(entries, slot);
            Held(Apply(rules, entries, ev).value, slot) ==
              if held.Some? then held else if Fills(ev, slot) then Some(ev.data) else None
  {
  }

  /** Every receipt, effect and result is the first one recorded for it, and is there if one was recorded. */
  lemma {:induction false} EntriesHoldTheFirst<K, P>(rules: Rules<P>, events: seq<Event<K, P>>, slot: Slot<K>)
    requires Fold(rules, events).Ok?
    ensures Held(Fold(rules, events).value, slot) == First(events, slot)
    decreases |events|
  {
    if events != [] {
      var before, ev := events[..|events| - 1], events[|events| - 1];
      assert events == before + [ev];
      EntriesHoldTheFirst(rules, before, slot);
      FirstSnoc(before, ev, slot);
      ApplyHolds(rules, Fold(rules, before).value, ev, slot);
    }
  }

  predicate Agrees<P>(rules: Rules<P>, first: Option<P>, data: P) { first.Some? ==> rules.same(first.value, data) }

  /** An effect of any name has been recorded for an id. */
  ghost predicate HasEffect<K, P>(events: seq<Event<K, P>>, id: K) {
    exists k :: 0 <= k < |events| && events[k].EffectEvent? && events[k].id == id
  }

  /**
   Whether one more event fits a log: a payload must be the one there is already, an effect needs a receipt
   and no result, and a result needs a receipt, and an effect unless it says the operation failed.
   */
  ghost predicate Fits<K, P>(rules: Rules<P>, events: seq<Event<K, P>>, ev: Event<K, P>) {
    match ev
    case ReceiptEvent(id, data) => Agrees(rules, First(events, ReceiptSlot(id)), data)
    case EffectEvent(id, effect, data) =>
      && First(events, ReceiptSlot(id)).Some? && First(events, ResultSlot(id)).None?
      && Agrees(rules, First(events, EffectSlot(id, effect)), data)
    case ResultEvent(id, data) =>
      && First(events, ReceiptSlot(id)).Some? && (HasEffect(events, id) || rules.failed(data))
      && Agrees(rules, First(events, ResultSlot(id)), data)
  }

  lemma {:induction false} FirstEffect<K, P>(events: seq<Event<K, P>>, k: nat)
    requires k < |events| && events[k].EffectEvent?
    ensures First(events, EffectSlot(events[k].id, events[k].effect)).Some?
  {
    if k > 0 { FirstEffect(events[1..], k - 1); }
  }

  lemma {:induction false} FirstIsThere<K, P>(events: seq<Event<K, P>>, id: K, effect: K)
    requires First(events, EffectSlot(id, effect)).Some?
    ensures HasEffect(events, id)
  {
    if !Fills(events[0], EffectSlot(id, effect)) {
      FirstIsThere(events[1..], id, effect);
      var k :| 0 <= k < |events[1..]| && events[1..][k].EffectEvent? && events[1..][k].id == id;
      assert events[k + 1] == events[1..][k];
    }
  }

  lemma EffectsAreThere<K, P>(rules: Rules<P>, events: seq<Event<K, P>>, id: K)
    requires Fold(rules, events).Ok?
    ensures EntryOf(Fold(rules, events).value, id).effects != map[] <==> HasEffect(events, id)
  {
    var effects := EntryOf(Fold(rules, events).value, id).effects;
    if effects != map[] {
      var effect :| effect in effects;
      EntriesHoldTheFirst(rules, events, EffectSlot(id, effect));
      FirstIsThere(events, id, effect);
    }
    if HasEffect(events, id) {
      var k :| 0 <= k < |events| && events[k].EffectEvent? && events[k].id == id;
      FirstEffect(events, k);
      EntriesHoldTheFirst(rules, events, EffectSlot(id, events[k].effect));
    }
  }

  /** A log that folds takes one more event exactly if that event fits the events already in it. */
  lemma AcceptedIfFits<K, P>(rules: Rules<P>, events: seq<Event<K, P>>, ev: Event<K, P>)
    requires Fold(rules, events).Ok?
    ensures Fold(rules, events + [ev]).Ok? <==> Fits(rules, events, ev)
  {
    FoldSnoc(rules, events, ev);
    EntriesHoldTheFirst(rules, events, ReceiptSlot(ev.id));
    EntriesHoldTheFirst(rules, events, ResultSlot(ev.id));
    if ev.EffectEvent? { EntriesHoldTheFirst(rules, events, EffectSlot(ev.id, ev.effect)); }
    EffectsAreThere(rules, events, ev.id);
  }
}
