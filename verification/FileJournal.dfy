/** The journal class over one file, whose contents are a field; what each write and sync call does is a parameter. */
module FileJournal {
  import opened Wrappers
  import opened Utf8
  import opened Journal
  import opened AgentJournal
  import Canonical

  datatype JournalError = Closed | Poisoned | NotStrictJson | Malformed | Refused(refusal: Refusal) | WriteFailed

  function Least(a: int, b: int): int { if a < b then a else b }

  /**
   Whether writes that report `writer(k)`, `writer(k + 1)`, ... get `remaining` bytes out. A write reports at
   most zero when it makes no progress or fails.
   */
  predicate Completes(writer: nat -> int, k: nat, remaining: nat)
    decreases remaining
  {
    remaining == 0 || (writer(k) > 0 && Completes(writer, k + 1, remaining - Least(writer(k), remaining)))
  }

  predicate PayloadsValid(e: Entry<string, Payload>) {
    && (e.receipt.Some? ==> IsPayload(e.receipt.value))
    && (forall k :: k in e.effects ==> IsPayload(e.effects[k]))
    && (e.result.Some? ==> IsPayload(e.result.value))
  }

  lemma {:induction false} StoredArePayloads(log: seq<Record>, id: string)
    requires Sound(log)
    ensures PayloadsValid(EntryOf(Fold(RULES, log).value, id))
    decreases |log|
  {
    if log != [] {
      FoldPrefix(RULES, log, |log| - 1);
      StoredArePayloads(log[..|log| - 1], id);
      StoredArePayloads(log[..|log| - 1], log[|log| - 1].id);
    }
  }

  lemma SoundSnoc(log: seq<Record>, ev: Record)
    requires Sound(log) && WellFormed(ev) && Apply(RULES, Fold(RULES, log).value, ev).Ok?
    ensures Sound(log + [ev]) && Fold(RULES, log + [ev]) == Apply(RULES, Fold(RULES, log).value, ev)
    ensures Bytes(log + [ev]) == Bytes(log) + LineBytes(ev)
  {
    FoldSnoc(RULES, log, ev);
    assert (log + [ev])[..|log|] == log;
  }

  function EffectOf(e: Entry<string, Payload>, effect: string): Option<Payload> {
    if effect in e.effects then Some(e.effects[effect]) else None
  }

  /**
   The entries are the fold of the acknowledged records, and the file holds those and perhaps part of the
   failed one.
   */
  ghost predicate Holds(log: seq<Record>, entries: Entries, file: seq<Byte>, torn: seq<Byte>, pending: Option<Record>) {
    && Sound(log) && entries == Fold(RULES, log).value && file == Bytes(log) + torn
    && if pending.Some? then Sound(log + [pending.value]) && torn <= LineBytes(pending.value) else torn == []
  }

  /**
   Whether a journal with this log takes a record for a slot: if one is there, exactly the same payload up to
   the order of fields, and otherwise a record that fits the log and whose write succeeds.
   */
  ghost predicate Takes(log: seq<Record>, ev: Record, slot: Slot<string>, written: bool) {
    var first := First(log, slot);
    if first.Some? then Canonical.Same(first.value, ev.data)
    else WellFormed(ev) && Fits(RULES, log, ev) && written
  }

  lemma LogDecides(log: seq<Record>, entries: Entries, ev: Record, slot: Slot<string>)
    requires Sound(log) && entries == Fold(RULES, log).value
    ensures Held(entries, slot) == First(log, slot)
    ensures Apply(RULES, entries, ev).Ok? <==> Fits(RULES, log, ev)
  {
    EntriesHoldTheFirst(RULES, log, slot);
    AcceptedIfFits(RULES, log, ev);
    FoldSnoc(RULES, log, ev);
  }

  /** What a record leaves in its slot if none was there. */
  lemma AppliedIsHeld(entries: Entries, ev: Record, slot: Slot<string>)
    requires Apply(RULES, entries, ev).Ok? && Fills(ev, slot) && Held(entries, slot).None? && IsPayload(ev.data)
    ensures var held := Held(Apply(RULES, entries, ev).value, slot);
            held.Some? && Canonical.Same(held.value, ev.data)
  {
    ApplyHolds(RULES, entries, ev, slot);
    Canonical.EqualIsSame(ev.data, ev.data);
  }

  lemma HoldsAfterCommit(log: seq<Record>, entries: Entries, file: seq<Byte>, ev: Record, next: Entries)
    requires Holds(log, entries, file, [], None) && WellFormed(ev) && Apply(RULES, entries, ev) == Ok(next)
    ensures Holds(log + [ev], next, file + LineBytes(ev), [], None)
  {
    SoundSnoc(log, ev);
    assert file == Bytes(log);
    assert file + LineBytes(ev) + [] == file + LineBytes(ev);
  }

  lemma HoldsAfterFailure(log: seq<Record>, entries: Entries, file: seq<Byte>, ev: Record, written: seq<Byte>)
    requires Holds(log, entries, file, [], None) && WellFormed(ev) && Apply(RULES, entries, ev).Ok?
             && written <= LineBytes(ev)
    ensures Holds(log, entries, file + written, written, Some(ev))
  {
    SoundSnoc(log, ev);
    assert file == Bytes(log);
  }

  lemma RecoveredHolds(history: seq<Record>, bytes: seq<Byte>)
    requires Sound(history) && bytes <= Bytes(history)
    ensures var log := history[..Whole(history, |bytes|)];
            && Replay(bytes).Ok? && !Drops(bytes) && Holds(log, Replay(bytes).value, bytes[..Boundary(bytes)], [], None)
  {
    assert Bytes(history)[..|bytes|] == bytes;
    PrefixRecovers(history, |bytes|);
    PrefixDropsNothing(history, |bytes|);
    CutPrefix(history, |bytes|);
    assert bytes[..Boundary(bytes)] + [] == bytes[..Boundary(bytes)];
  }

  class FileAgentJournal {
    var entries: Entries
    var file: seq<Byte>
    var closed: bool
    var poisoned: bool
    ghost var log: seq<Record> // acknowledged records
    ghost var torn: seq<Byte> // what follows them in the file
    ghost var pending: Option<Record> // the record whose write failed

    /** What has been written of, at most: the acknowledged records and one that failed. */
    ghost function Written(): seq<Record>
      reads this
    {
      if pending.Some? then log + [pending.value] else log
    }

    ghost predicate Valid()
      reads this
    {
      Holds(log, entries, file, torn, pending) && (poisoned <==> pending.Some?)
    }

    constructor (entries: Entries, file: seq<Byte>, ghost log: seq<Record>)
      ensures this.entries == entries && this.file == file && this.log == log && torn == [] && pending == None
              && !closed && !poisoned
    {
      this.entries, this.file, this.log := entries, file, log;
      closed, poisoned, torn, pending := false, false, [], None;
    }

    /**
     Cuts a torn last line and replays the rest, or says which record is corrupt. What it replayed is what
     the kept file holds, unless it passed over a last line that is not JSON.
     */
    static method Open(bytes: seq<Byte>, ghost history: seq<Record>) returns (r: Result<FileAgentJournal, nat>)
      ensures r.Ok? ==> fresh(r.value) && Replay(bytes) == Ok(r.value.entries)
      ensures r.Ok? ==> r.value.file == bytes[..Boundary(bytes)]
      ensures r.Ok? ==> !r.value.closed && !r.value.poisoned
      ensures r.Err? ==> Replay(bytes) == Err(r.error)
      ensures r.Ok? ==> (Replay(r.value.file) == Ok(r.value.entries) <==> !Drops(bytes))
      ensures Sound(history) && bytes <= Bytes(history) ==>
                r.Ok? && r.value.Valid() && r.value.log == history[..Whole(history, |bytes|)] && !Drops(bytes)
    {
      if Sound(history) && bytes <= Bytes(history) { RecoveredHolds(history, bytes); }
      ReopeningAgrees(bytes);
      var kept := bytes[..Boundary(bytes)];
      var replayed := ReplayRecords(Lines(Decode(kept)), |kept| < |bytes|);
      if replayed.Err? { return Err(replayed.error); }
      var journal := new FileAgentJournal(replayed.value, kept, history[..Whole(history, |bytes|)]);
      r := Ok(journal);
    }

    static method ReplayRecords(lines: seq<string>, torn: bool) returns (r: Result<Entries, nat>)
      ensures r == ReplayTorn(lines, torn)
    {
      var entries: Entries := map[];
      var index := 0;
      while index < |lines|
        invariant 0 <= index <= |lines| && ReplayLines(lines[..index]) == Ok(entries)
      {
        if index == |lines| - 1 && torn && NotJson(lines[index]) { return Ok(entries); }
        var ev := ReadLine(lines[index]);
        ReplayNextLine(lines, index, entries);
        if ev.None? {
          ReplayTornStops(lines, index + 1, torn);
          return Err(index + 1);
        }
        var applied := Apply(RULES, entries, ev.value);
        if applied.Err? {
          ReplayTornStops(lines, index + 1, torn);
          return Err(index + 1);
        }
        entries := applied.value;
        index := index + 1;
      }
      assert lines[..index] == lines;
      r := Ok(entries);
    }

    /** Writes one record and syncs it, in as many writes as the file takes, or poisons the journal. */
    method Append(ev: Record, writer: nat -> int, synced: bool) returns (r: Result<(), JournalError>)
      requires Valid() && !poisoned
      modifies this
      ensures Valid() && closed == old(closed) && Appends(ev, writer, synced, r)
    {
      if !WellFormed(ev) { return Err(Malformed); }
      var applied := Apply(RULES, entries, ev);
      if applied.Err? { return Err(Refused(applied.error)); }
      var done := Commit(ev, LineBytes(ev), applied.value, writer, synced);
      r := if done then Ok(()) else Err(WriteFailed);
    }

    /** Writes a record that applies; the entries follow only if all of it was written and synced. */
    method Commit(ghost ev: Record, bytes: seq<Byte>, next: Entries, writer: nat -> int, synced: bool)
        returns (done: bool)
      requires Holds(log, entries, file, [], None) && torn == [] && pending == None && !poisoned
      requires WellFormed(ev) && Apply(RULES, entries, ev) == Ok(next) && bytes == LineBytes(ev)
      modifies this
      ensures Holds(log, entries, file, torn, pending) && (poisoned <==> pending.Some?) && closed == old(closed)
      ensures done <==> Completes(writer, 0, |bytes|) && synced
      ensures if done then entries == next && log == old(log) + [ev] && file == old(file) + bytes && !poisoned
              else poisoned && entries == old(entries) && log == old(log) && old(file) <= file <= old(file) + bytes
    {
      ghost var before := file;
      ghost var written;
      done, written := WriteAll(bytes, writer);
      if !done || !synced {
        HoldsAfterFailure(log, entries, before, ev, written);
        torn, poisoned, pending := written, true, Some(ev);
        return false;
      }
      HoldsAfterCommit(log, entries, before, ev, next);
      entries, log := next, log + [ev];
    }

    /** Writes until all bytes are out or a write makes no progress. */
    method WriteAll(bytes: seq<Byte>, writer: nat -> int) returns (done: bool, ghost written: seq<Byte>)
      modifies this`file
      ensures done <==> Completes(writer, 0, |bytes|)
      ensures file == old(file) + written && written <= bytes && (done ==> written == bytes)
    {
      var offset, k := 0, 0;
      while offset < |bytes|
        invariant 0 <= offset <= |bytes| && file == old(file) + bytes[..offset]
        invariant Completes(writer, k, |bytes| - offset) <==> Completes(writer, 0, |bytes|)
        decreases |bytes| - offset
      {
        var count := Least(writer(k), |bytes| - offset);
        if count <= 0 { return false, bytes[..offset]; }
        assert bytes[..offset] + bytes[offset..offset + count] == bytes[..offset + count];
        file := file + bytes[offset..offset + count];
        offset, k := offset + count, k + 1;
      }
      assert bytes[..offset] == bytes;
      return true, bytes;
    }

    /** What appending a record does, by whether the record is refused, the write fails, or neither. */
    twostate predicate Appends(ev: Record, writer: nat -> int, synced: bool, new r: Result<(), JournalError>)
      reads this
    {
      var applied := Apply(RULES, old(entries), ev);
      if !WellFormed(ev) then r == Err(Malformed) && Untouched()
      else if applied.Err? then r == Err(Refused(applied.error)) && Untouched()
      else if Completes(writer, 0, |LineBytes(ev)|) && synced then
        r == Ok(()) && entries == applied.value && log == old(log) + [ev] && file == old(file) + LineBytes(ev)
            && !poisoned
      else
        r == Err(WriteFailed) && poisoned && entries == old(entries) && log == old(log)
        && old(file) <= file <= old(file) + LineBytes(ev)
    }

    twostate predicate Untouched()
      reads this
    {
      entries == old(entries) && file == old(file) && log == old(log) && poisoned == old(poisoned)
          && closed == old(closed)
    }

    /**
     What recording a payload does: nothing on a closed or poisoned journal; nothing if a payload is there
     already, which is fine exactly if it is the same up to the order of fields; else the record is appended.
     */
    twostate predicate Records(existing: Option<Payload>, ev: Record, writer: nat -> int, synced: bool,
        new r: Result<(), JournalError>)
      reads this
    {
      if old(closed) then r == Err(Closed) && Untouched()
      else if old(poisoned) then r == Err(Poisoned) && Untouched()
      else if !IsPayload(ev.data) then r == Err(NotStrictJson) && Untouched()
      else if existing.Some? then
        Untouched() && r == if Canonical.Same(existing.value, ev.data) then Ok(()) else Err(Refused(DifferentPayload))
      else Appends(ev, writer, synced, r)
    }

    method RecordReceipt(id: string, data: Payload, writer: nat -> int, synced: bool)
        returns (r: Result<(), JournalError>)
      requires Valid()
      modifies this
      ensures Valid() && closed == old(closed)
      ensures Records(EntryOf(old(entries), id).receipt, ReceiptEvent(id, data), writer, synced, r)
      ensures r.Ok? ==> var held := Held(entries, ReceiptSlot(id)); held.Some? && Canonical.Same(held.value, data)
      ensures r.Ok? <==> !old(closed) && !old(poisoned) && IsPayload(data)
                         && Takes(old(log), ReceiptEvent(id, data), ReceiptSlot(id),
                                  Completes(writer, 0, |LineBytes(ReceiptEvent(id, data))|) && synced)
    {
      LogDecides(log, entries, ReceiptEvent(id, data), ReceiptSlot(id));
      if closed { return Err(Closed); }
      if poisoned { return Err(JournalError.Poisoned); }
      if !IsPayload(data) { return Err(NotStrictJson); }
      var existing := EntryOf(entries, id).receipt;
      if existing.Some? {
        StoredArePayloads(log, id);
        Canonical.EqualIsSame(existing.value, data);
        return if Canonical.Equal(existing.value, data) then Ok(()) else Err(Refused(DifferentPayload));
      }
      ghost var before := entries;
      r := Append(ReceiptEvent(id, data), writer, synced);
      if r.Ok? { AppliedIsHeld(before, ReceiptEvent(id, data), ReceiptSlot(id)); }
    }

    method RecordEffect(id: string, effect: string, data: Payload, writer: nat -> int, synced: bool)
        returns (r: Result<(), JournalError>)
      requires Valid()
      modifies this
      ensures Valid() && closed == old(closed)
      ensures Records(EffectOf(EntryOf(old(entries), id), effect), EffectEvent(id, effect, data), writer, synced, r)
      ensures r.Ok? ==> var held := Held(entries, EffectSlot(id, effect));
              held.Some? && Canonical.Same(held.value, data)
      ensures r.Ok? <==> !old(closed) && !old(poisoned) && IsPayload(data)
                         && Takes(old(log), EffectEvent(id, effect, data), EffectSlot(id, effect),
                                  Completes(writer, 0, |LineBytes(EffectEvent(id, effect, data))|) && synced)
    {
      LogDecides(log, entries, EffectEvent(id, effect, data), EffectSlot(id, effect));
      if closed { return Err(Closed); }
      if poisoned { return Err(JournalError.Poisoned); }
      if !IsPayload(data) { return Err(NotStrictJson); }
      var existing := EffectOf(EntryOf(entries, id), effect);
      if existing.Some? {
        StoredArePayloads(log, id);
        Canonical.EqualIsSame(existing.value, data);
        return if Canonical.Equal(existing.value, data) then Ok(()) else Err(Refused(DifferentPayload));
      }
      ghost var before := entries;
      r := Append(EffectEvent(id, effect, data), writer, synced);
      if r.Ok? { AppliedIsHeld(before, EffectEvent(id, effect, data), EffectSlot(id, effect)); }
    }

    method RecordResult(id: string, data: Payload, writer: nat -> int, synced: bool)
        returns (r: Result<(), JournalError>)
      requires Valid()
      modifies this
      ensures Valid() && closed == old(closed)
      ensures Records(EntryOf(old(entries), id).result, ResultEvent(id, data), writer, synced, r)
      ensures r.Ok? ==> var held := Held(entries, ResultSlot(id)); held.Some? && Canonical.Same(held.value, data)
      ensures r.Ok? <==> !old(closed) && !old(poisoned) && IsPayload(data)
                         && Takes(old(log), ResultEvent(id, data), ResultSlot(id),
                                  Completes(writer, 0, |LineBytes(ResultEvent(id, data))|) && synced)
    {
      LogDecides(log, entries, ResultEvent(id, data), ResultSlot(id));
      if closed { return Err(Closed); }
      if poisoned { return Err(JournalError.Poisoned); }
      if !IsPayload(data) { return Err(NotStrictJson); }
      var existing := EntryOf(entries, id).result;
      if existing.Some? {
        StoredArePayloads(log, id);
        Canonical.EqualIsSame(existing.value, data);
        return if Canonical.Equal(existing.value, data) then Ok(()) else Err(Refused(DifferentPayload));
      }
      ghost var before := entries;
      r := Append(ResultEvent(id, data), writer, synced);
      if r.Ok? { AppliedIsHeld(before, ResultEvent(id, data), ResultSlot(id)); }
    }

    /** Closing keeps the entries and the file as they are; every record is refused from then on. */
    method Close()
      requires Valid()
      modifies this`closed
      ensures Valid() && closed
      ensures entries == old(entries) && file == old(file) && log == old(log) && poisoned == old(poisoned)
    {
      closed := true;
    }

    /**
     A crash may leave any prefix of what was written. Whatever it leaves opens, to the fold of the records
     whose newline is there; if nothing is lost, that is at least every acknowledged record.
     */
    lemma CrashRecovers(n: nat)
      requires Valid() && n <= |file|
      ensures var survived := Written()[..Whole(Written(), n)];
              && Sound(survived) && Replay(file[..n]) == Ok(Fold(RULES, survived).value)
              && (n == |file| ==> log <= survived)
    {
      var written := Written();
      if pending.Some? {
        FoldPrefix(RULES, written, |log|);
        assert written[..|log|] == log;
        assert Bytes(written) == Bytes(log) + LineBytes(pending.value);
      }
      assert file <= Bytes(written);
      assert file[..n] == Bytes(written)[..n];
      PrefixRecovers(written, n);
      FoldPrefix(RULES, written, Whole(written, n));
      if n == |file| {
        assert written[..|log|] == log;
        WholeCovers(written, |log|, n);
      }
    }
  }

  /** What replaying one more line gives. */
  lemma ReplayNextLine(lines: seq<string>, index: nat, entries: Entries)
    requires index < |lines| && ReplayLines(lines[..index]) == Ok(entries)
    ensures var ev := ReadLine(lines[index]);
            ReplayLines(lines[..index + 1]) ==
              if ev.None? || Apply(RULES, entries, ev.value).Err? then Err(index + 1)
              else Ok(Apply(RULES, entries, ev.value).value)
  {
    var next := lines[..index + 1];
    assert next[..index] == lines[..index] && next[index] == lines[index];
  }

  /** A line that fails, and is not one to pass over, fails the replay. */
  lemma ReplayTornStops(lines: seq<string>, k: nat, torn: bool)
    requires 0 < k <= |lines| && ReplayLines(lines[..k]).Err? && !(k == |lines| && PassesOver(lines, torn))
    ensures ReplayTorn(lines, torn) == ReplayLines(lines[..k])
  {
    var read := if PassesOver(lines, torn) then lines[..|lines| - 1] else lines;
    assert read[..k] == lines[..k];
    ReplayStops(read, k);
  }

  lemma {:induction false} ReplayStops(lines: seq<string>, k: nat)
    requires 0 < k <= |lines| && ReplayLines(lines[..k]).Err?
    ensures ReplayLines(lines) == ReplayLines(lines[..k])
    decreases |lines|
  {
    if k < |lines| {
      assert lines[..|lines| - 1][..k] == lines[..k];
      ReplayStops(lines[..|lines| - 1], k);
    } else {
      assert lines[..k] == lines;
    }
  }
}
