/** Entries kept under any keys and payloads, and the journal file that holds them as text. */
module JournalCodec {
  import opened Wrappers
  import opened Journal
  import AgentJournal
  import FileJournal
  import Canonical
  import Utf8

  type Byte = Utf8.Byte
  type Payload = AgentJournal.Payload
  type Record = AgentJournal.Record

  /** How keys and payloads are written in the file. Recording an event here is recording its written form there. */
  datatype Codec<!K, !P> = Codec(name: K -> string, payload: P -> Payload)

  /** Payloads are told apart, and say whether they failed, in the file as they do here. */
  predicate Tells<P>(payload: P -> Payload, rules: Rules<P>, a: P, b: P) {
    && (Canonical.Equal(payload(a), payload(b)) <==> rules.same(a, b))
    && (AgentJournal.SaysFailed(payload(a)) <==> rules.failed(a))
    && AgentJournal.IsPayload(payload(a))
  }

  ghost predicate Faithful<K(!new), P(!new)>(codec: Codec<K, P>, rules: Rules<P>) {
    && (forall i, j :: codec.name(i) == codec.name(j) ==> i == j) && (forall i :: codec.name(i) != "")
    && (forall a, b {:trigger Tells(codec.payload, rules, a, b)} :: Tells(codec.payload, rules, a, b))
  }

  function Paid<K, P>(codec: Codec<K, P>, data: Option<P>): Option<Payload> {
    if data.Some? then Some(codec.payload(data.value)) else None
  }

  ghost predicate Injective<K(!new), P>(codec: Codec<K, P>) {
    forall i, j :: codec.name(i) == codec.name(j) ==> i == j
  }

  ghost function EffectsOnDisk<K(!new), P>(codec: Codec<K, P>, effects: map<K, P>): map<string, Payload>
    requires Injective(codec)
  {
    map k | k in effects :: codec.name(k) := codec.payload(effects[k])
  }

  ghost function OnDisk<K(!new), P>(codec: Codec<K, P>, e: Entry<K, P>): Entry<string, Payload>
    requires Injective(codec)
  {
    Entry(Paid(codec, e.receipt), EffectsOnDisk(codec, e.effects), Paid(codec, e.result))
  }

  ghost function AllOnDisk<K(!new), P>(codec: Codec<K, P>, entries: map<K, Entry<K, P>>): AgentJournal.Entries
    requires Injective(codec)
  {
    map id | id in entries :: codec.name(id) := OnDisk(codec, entries[id])
  }

  function RecordOf<K, P>(codec: Codec<K, P>, ev: Event<K, P>): Record {
    match ev
    case ReceiptEvent(id, data) => ReceiptEvent(codec.name(id), codec.payload(data))
    case EffectEvent(id, effect, data) => EffectEvent(codec.name(id), codec.name(effect), codec.payload(data))
    case ResultEvent(id, data) => ResultEvent(codec.name(id), codec.payload(data))
  }

  lemma EffectOnDisk<K(!new), P(!new)>(codec: Codec<K, P>, effects: map<K, P>, effect: K, data: P)
    requires Injective(codec)
    ensures codec.name(effect) in EffectsOnDisk(codec, effects) <==> effect in effects
    ensures effect in effects ==> EffectsOnDisk(codec, effects)[codec.name(effect)] == codec.payload(effects[effect])
    ensures EffectsOnDisk(codec, effects[effect := data])
         == EffectsOnDisk(codec, effects)[codec.name(effect) := codec.payload(data)]
  {
  }

  lemma NoEffectsOnDisk<K(!new), P(!new)>(codec: Codec<K, P>, effects: map<K, P>)
    requires Injective(codec)
    ensures EffectsOnDisk(codec, effects) == map[] <==> effects == map[]
  {
    if effects != map[] {
      var k :| k in effects;
      assert codec.name(k) in EffectsOnDisk(codec, effects);
    }
  }

  /** A payload is kept here exactly if it is in the file. */
  lemma KeepsOnDisk<K(!new), P(!new)>(codec: Codec<K, P>, rules: Rules<P>, existing: Option<P>, data: P)
    requires Faithful(codec, rules)
    ensures var kept := Keep(rules, existing, data);
            Keep(AgentJournal.RULES, Paid(codec, existing), codec.payload(data)) ==
              (if kept.Ok? then Ok(codec.payload(kept.value)) else Err(kept.error))
  {
    if existing.Some? { assert Tells(codec.payload, rules, existing.value, data); }
  }

  lemma EffectAppliesOnDisk<K(!new), P(!new)>(codec: Codec<K, P>, rules: Rules<P>, e: Entry<K, P>, ev: Event<K, P>)
    requires Faithful(codec, rules) && ev.EffectEvent?
    ensures var applied := ApplyTo(rules, e, ev);
            ApplyTo(AgentJournal.RULES, OnDisk(codec, e), RecordOf(codec, ev)) ==
              (if applied.Ok? then Ok(OnDisk(codec, applied.value)) else Err(applied.error))
  {
    var existing := if ev.effect in e.effects then Some(e.effects[ev.effect]) else None;
    KeepsOnDisk(codec, rules, existing, ev.data);
    EffectOnDisk(codec, e.effects, ev.effect, if existing.Some? then existing.value else ev.data);
  }

  lemma AppliesOnDisk<K(!new), P(!new)>(codec: Codec<K, P>, rules: Rules<P>, e: Entry<K, P>, ev: Event<K, P>)
    requires Faithful(codec, rules)
    ensures var applied := ApplyTo(rules, e, ev);
            ApplyTo(AgentJournal.RULES, OnDisk(codec, e), RecordOf(codec, ev)) ==
              (if applied.Ok? then Ok(OnDisk(codec, applied.value)) else Err(applied.error))
  {
    assert Tells(codec.payload, rules, ev.data, ev.data);
    match ev
    case ReceiptEvent(_, data) => KeepsOnDisk(codec, rules, e.receipt, data);
    case EffectEvent(_, _, _) => EffectAppliesOnDisk(codec, rules, e, ev);
    case ResultEvent(_, data) =>
      KeepsOnDisk(codec, rules, e.result, data);
      NoEffectsOnDisk(codec, e.effects);
  }

  lemma EntriesOnDisk<K(!new), P(!new)>(codec: Codec<K, P>, entries: map<K, Entry<K, P>>, id: K, e: Entry<K, P>)
    requires Injective(codec)
    ensures EntryOf(AllOnDisk(codec, entries), codec.name(id)) == OnDisk(codec, EntryOf(entries, id))
    ensures AllOnDisk(codec, entries[id := e]) == AllOnDisk(codec, entries)[codec.name(id) := OnDisk(codec, e)]
  {
    NoEffectsOnDisk(codec, map[]);
  }

  /** Recording an event in the file's terms is recording it here. */
  lemma RecordsOnDisk<K(!new), P(!new)>(codec: Codec<K, P>, rules: Rules<P>, entries: map<K, Entry<K, P>>,
      ev: Event<K, P>)
    requires Faithful(codec, rules)
    ensures var applied := Apply(rules, entries, ev);
            Apply(AgentJournal.RULES, AllOnDisk(codec, entries), RecordOf(codec, ev)) ==
              (if applied.Ok? then Ok(AllOnDisk(codec, applied.value)) else Err(applied.error))
  {
    var e := EntryOf(entries, ev.id);
    var applied := ApplyTo(rules, e, ev);
    AppliesOnDisk(codec, rules, e, ev);
    EntriesOnDisk(codec, entries, ev.id, if applied.Ok? then applied.value else e);
  }

  /**
   Any part of a record's bytes after a journal's opens to the entries with the record if it is whole, else
   without.
   */
  lemma WriteReplays<K(!new), P(!new)>(codec: Codec<K, P>, rules: Rules<P>, entries: map<K, Entry<K, P>>,
      ev: Event<K, P>,
                           log: seq<Record>, file: seq<Byte>, part: seq<Byte>)
    requires Faithful(codec, rules) && Apply(rules, entries, ev).Ok?
    requires FileJournal.Holds(log, AllOnDisk(codec, entries), file, [], None)
    requires part <= AgentJournal.LineBytes(RecordOf(codec, ev))
    ensures var after := if part == AgentJournal.LineBytes(RecordOf(codec, ev)) then Apply(rules, entries, ev).value
            else entries;
            AgentJournal.Replay(file + part) == Ok(AllOnDisk(codec, after))
  {
    var record := RecordOf(codec, ev);
    RecordsOnDisk(codec, rules, entries, ev);
    assert Tells(codec.payload, rules, ev.data, ev.data);
    PartReplays(log, record, file, part);
  }

  lemma PartReplays(log: seq<Record>, record: Record, file: seq<Byte>, part: seq<Byte>)
    requires AgentJournal.Sound(log) && file == AgentJournal.Bytes(log) && AgentJournal.WellFormed(record)
    requires var next := Apply(AgentJournal.RULES, Fold(AgentJournal.RULES, log).value, record);
             next.Ok? && part <= AgentJournal.LineBytes(record)
    ensures var before := Fold(AgentJournal.RULES, log);
            AgentJournal.Replay(file + part) ==
              Ok(if part == AgentJournal.LineBytes(record) then Apply(AgentJournal.RULES, before.value, record).value
                 else before.value)
  {
    var all := log + [record];
    FileJournal.SoundSnoc(log, record);
    assert all[..|log|] == log && all[..|all|] == all;
    assert file + part == AgentJournal.Bytes(all)[..|file + part|];
    AgentJournal.PrefixRecovers(all, |file + part|);
    AgentJournal.WholeCovers(all, |log|, |file + part|);
  }
}
