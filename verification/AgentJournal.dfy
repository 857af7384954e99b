/**
 The agent's journal as a file: one JSON record a line, appended by writes that may be short or fail,
 and replayed at start after cutting a torn last line.
 */
module AgentJournal {
  import opened Wrappers
  import opened Utf8
  import opened Journal
  import Json
  import Canonical

  type Payload = Json.Value
  type Record = Event<string, Payload>
  type Entries = map<string, Entry<string, Payload>>

  function Lookup(fields: seq<Json.Field>, key: string): Option<Payload> {
    if fields == [] then None
    else if fields[0].key == key then Some(fields[0].value)
    else Lookup(fields[1..], key)
  }

  /** A result counts as a failure if its outcome says so. */
  predicate SaysFailed(data: Payload) {
    data.Obj? && Lookup(data.fields, "outcome") == Some(Json.Str("failed"))
  }

  const RULES: Rules<Payload> := Rules((a, b) => Canonical.Equal(a, b), data => SaysFailed(data))

  /** Payloads are objects of strict JSON. */
  predicate IsPayload(data: Payload) { data.Obj? && Json.Valid(data) }

  predicate WellFormed(ev: Record) {
    ev.id != "" && (ev.EffectEvent? ==> ev.effect != "") && IsPayload(ev.data)
  }

  // --- records and lines ---

  function TypeOf(ev: Record): string {
    match ev
    case ReceiptEvent(_, _) => "receipt"
    case EffectEvent(_, _, _) => "effect"
    case ResultEvent(_, _) => "result"
  }

  function ValueOf(ev: Record): Payload {
    Json.Obj([Json.Field("version", Json.Num("1")), Json.Field("type", Json.Str(TypeOf(ev))),
              Json.Field("receiptId", Json.Str(ev.id))]
             + (if ev.EffectEvent? then [Json.Field("effectId", Json.Str(ev.effect))] else [])
             + [Json.Field("data", ev.data)])
  }

  function Line(ev: Record): string { Json.Stringify(ValueOf(ev)) }
  function LineBytes(ev: Record): seq<Byte> { Encode(Line(ev) + "\n") }

  /** Strict: exactly the keys of the record's type. */
  function RecordOf(v: Payload): Option<Record> {
    if !v.Obj? || Lookup(v.fields, "version") != Some(Json.Num("1")) then None
    else
      var kind, id, effect, data := Lookup(v.fields, "type"), Lookup(v.fields, "receiptId"),
          Lookup(v.fields, "effectId"), Lookup(v.fields, "data");
      if !(id.Some? && id.value.Str? && id.value.chars != "" && data.Some? && data.value.Obj?) then None
      else if kind == Some(Json.Str("effect")) then
        if effect.Some? && effect.value.Str? && effect.value.chars != "" && |v.fields| == 5
        then Some(EffectEvent(id.value.chars, effect.value.chars, data.value)) else None
      else if |v.fields| != 4 then None
      else if kind == Some(Json.Str("receipt")) then Some(ReceiptEvent(id.value.chars, data.value))
      else if kind == Some(Json.Str("result")) then Some(ResultEvent(id.value.chars, data.value))
      else None
  }

  function ReadLine(line: string): Option<Record> {
    var v := Json.Parse(line);
    if v.None? then None else RecordOf(v.value)
  }

  lemma ValueIsValid(ev: Record)
    requires WellFormed(ev)
    ensures Json.Valid(ValueOf(ev))
  {
    assert Json.NumberText("1");
  }

  lemma LookupAt(fields: seq<Json.Field>, k: nat)
    requires k < |fields| && forall j :: 0 <= j < k ==> fields[j].key != fields[k].key
    ensures Lookup(fields, fields[k].key) == Some(fields[k].value)
  {
    if k > 0 { LookupAt(fields[1..], k - 1); }
  }

  lemma RecordOfValue(ev: Record)
    requires WellFormed(ev)
    ensures RecordOf(ValueOf(ev)) == Some(ev)
  {
    var fields := ValueOf(ev).fields;
    LookupAt(fields, 0);
    LookupAt(fields, 1);
    LookupAt(fields, 2);
    LookupAt(fields, |fields| - 1);
    if ev.EffectEvent? { LookupAt(fields, 3); }
  }

  /** Reading a written record gives the record back, and the record is one nonempty line. */
  lemma LineRoundTrip(ev: Record)
    requires WellFormed(ev)
    ensures ReadLine(Line(ev)) == Some(ev) && '\n' !in Line(ev) && Line(ev) != ""
  {
    ValueIsValid(ev);
    Json.RoundTrip(ValueOf(ev));
    RecordOfValue(ev);
    Json.TextIsOneLine(ValueOf(ev));
  }

  // --- which lines are records ---

  lemma {:induction false} LookupIsThere(fields: seq<Json.Field>, key: string, value: Payload)
    requires Json.Distinct(fields)
    ensures Lookup(fields, key) == Some(value) <==> Json.Field(key, value) in fields
  {
    if fields != [] {
      var first, rest := fields[0], fields[1..];
      LookupIsThere(rest, key, value);
      assert Json.Field(key, value) in fields <==> Json.Field(key, value) == first || Json.Field(key, value) in rest;
      assert forall k :: 0 <= k < |rest| ==> rest[k] == fields[k + 1];
      assert first.key == key ==> Json.Field(key, value) !in rest;
    }
  }

  function FieldSet(fields: seq<Json.Field>): set<Json.Field> { set f | f in fields }

  lemma {:induction false} FieldSetSize(fields: seq<Json.Field>)
    requires Json.Distinct(fields)
    ensures |FieldSet(fields)| == |fields|
  {
    if fields != [] {
      FieldSetSize(fields[1..]);
      assert FieldSet(fields) == {fields[0]} + FieldSet(fields[1..]);
      assert fields[0] !in fields[1..];
    }
  }

  lemma {:induction false} AllFields(part: set<Json.Field>, whole: set<Json.Field>)
    requires part <= whole && |part| == |whole|
    ensures part == whole
  {
    if f: Json.Field :| f in part { AllFields(part - {f}, whole - {f}); } else { assert part == {}; }
  }

  /** The fields of a record's object: these and no others, in any order. */
  function FieldsOf(ev: Record): set<Json.Field> {
    var common := {Json.Field("version", Json.Num("1")), Json.Field("receiptId", Json.Str(ev.id)),
                   Json.Field("data", ev.data)};
    match ev
    case ReceiptEvent(_, _) => common + {Json.Field("type", Json.Str("receipt"))}
    case EffectEvent(_, effect, _) =>
      common + {Json.Field("type", Json.Str("effect")), Json.Field("effectId", Json.Str(effect))}
    case ResultEvent(_, _) => common + {Json.Field("type", Json.Str("result"))}
  }

  predicate Named(ev: Record) { ev.id != "" && ev.data.Obj? && (ev.EffectEvent? ==> ev.effect != "") }

  /** Looking up finds the parts of the record, and there is nothing else. */
  predicate Finds(fields: seq<Json.Field>, ev: Record) {
    && Lookup(fields, "version") == Some(Json.Num("1")) && Lookup(fields, "type") == Some(Json.Str(TypeOf(ev)))
    && Lookup(fields, "receiptId") == Some(Json.Str(ev.id)) && Lookup(fields, "data") == Some(ev.data)
    && if ev.EffectEvent? then Lookup(fields, "effectId") == Some(Json.Str(ev.effect)) && |fields| == 5
        else |fields| == 4
  }

  lemma RecordIsFound(fields: seq<Json.Field>, ev: Record)
    ensures RecordOf(Json.Obj(fields)) == Some(ev) <==> Finds(fields, ev) && Named(ev)
  {
  }

  lemma FieldsCount(ev: Record)
    ensures |FieldsOf(ev)| == if ev.EffectEvent? then 5 else 4
  {
    var v, i, d := Json.Field("version", Json.Num("1")), Json.Field("receiptId", Json.Str(ev.id)),
        Json.Field("data", ev.data);
    var t := Json.Field("type", Json.Str(TypeOf(ev)));
    assert v.key != i.key && v.key != d.key && i.key != d.key && t.key !in {v.key, i.key, d.key};
    if ev.EffectEvent? {
      var e := Json.Field("effectId", Json.Str(ev.effect));
      assert e.key !in {v.key, i.key, d.key, t.key};
      assert FieldsOf(ev) == {v, i, d, t, e};
    } else {
      assert FieldsOf(ev) == {v, i, d, t};
    }
  }

  lemma FoundAreFields(fields: seq<Json.Field>, ev: Record)
    requires Json.Distinct(fields)
    ensures Finds(fields, ev) <==> FieldSet(fields) == FieldsOf(ev)
  {
    LookupIsThere(fields, "version", Json.Num("1"));
    LookupIsThere(fields, "receiptId", Json.Str(ev.id));
    LookupIsThere(fields, "data", ev.data);
    LookupIsThere(fields, "type", Json.Str(TypeOf(ev)));
    if ev.EffectEvent? { LookupIsThere(fields, "effectId", Json.Str(ev.effect)); }
    FieldSetSize(fields);
    FieldsCount(ev);
    InFieldSet(fields, ev);
    if FieldsOf(ev) <= FieldSet(fields) && |fields| == |FieldsOf(ev)| { AllFields(FieldsOf(ev), FieldSet(fields)); }
  }

  lemma InFieldSet(fields: seq<Json.Field>, ev: Record)
    ensures FieldsOf(ev) <= FieldSet(fields) <==>
              && Json.Field("version", Json.Num("1")) in fields && Json.Field("receiptId", Json.Str(ev.id)) in fields
              && Json.Field("data", ev.data) in fields && Json.Field("type", Json.Str(TypeOf(ev))) in fields
              && (ev.EffectEvent? ==> Json.Field("effectId", Json.Str(ev.effect)) in fields)
  {
  }

  /**
   An object is read as a record exactly if it has that record's fields and no others, with names that are not
   empty and an object as its data.
   */
  lemma RecordsAreStrict(fields: seq<Json.Field>, ev: Record)
    requires Json.Distinct(fields)
    ensures RecordOf(Json.Obj(fields)) == Some(ev)
            <==> FieldSet(fields) == FieldsOf(ev) && Named(ev)
  {
    RecordIsFound(fields, ev);
    FoundAreFields(fields, ev);
  }

  /** A payload says it failed exactly if it is an object with the field that says so. */
  lemma FailureIsSaid(fields: seq<Json.Field>)
    requires Json.Distinct(fields)
    ensures SaysFailed(Json.Obj(fields)) <==> Json.Field("outcome", Json.Str("failed")) in fields
  {
    LookupIsThere(fields, "outcome", Json.Str("failed"));
  }

  // --- replay ---

  /** The position after the last newline, or the start. */
  function Boundary(bytes: seq<Byte>): (n: nat)
    ensures n <= |bytes|
  {
    if bytes == [] || bytes[|bytes| - 1] == NEWLINE then |bytes| else Boundary(bytes[..|bytes| - 1])
  }

  /** The text's lines; what follows the last newline is not one. */
  function Lines(text: string): seq<string> { LinesFrom("", text) }

  function LinesFrom(start: string, text: string): seq<string>
    decreases |text|
  {
    if text == "" then []
    else if text[0] == '\n' then [start] + LinesFrom("", text[1..])
    else LinesFrom(start + [text[0]], text[1..])
  }

  /** The entries that some lines record, or the number of the first line that cannot be replayed. */
  function ReplayLines(lines: seq<string>): Result<Entries, nat> {
    if lines == [] then Ok(map[])
    else
      var before := ReplayLines(lines[..|lines| - 1]);
      if before.Err? then before
      else
        var ev := ReadLine(lines[|lines| - 1]);
        if ev.None? then Err(|lines|)
        else
          var applied := Apply(RULES, before.value, ev.value);
          if applied.Err? then Err(|lines|) else Ok(applied.value)
  }

  /** What each line is read as. */
  function Reads(lines: seq<string>): (found: seq<Option<Record>>)
    ensures |found| == |lines|
  {
    if lines == [] then [] else Reads(lines[..|lines| - 1]) + [ReadLine(lines[|lines| - 1])]
  }

  /** All are records, and the records fold. */
  predicate Foldable(found: seq<Option<Record>>) {
    (forall k :: 0 <= k < |found| ==> found[k].Some?) && Fold(RULES, RecordsOf(found)).Ok?
  }

  function RecordsOf(found: seq<Option<Record>>): (log: seq<Record>)
    requires forall k :: 0 <= k < |found| ==> found[k].Some?
    ensures |log| == |found| && forall k :: 0 <= k < |found| ==> log[k] == found[k].value
  {
    seq(|found|, k requires 0 <= k < |found| => found[k].value)
  }

  /** The result is the fold of the records, or the number of the first up to which they do not fold. */
  predicate Tells(found: seq<Option<Record>>, r: Result<Entries, nat>) {
    match r
    case Ok(entries) => Foldable(found) && entries == Fold(RULES, RecordsOf(found)).value
    case Err(n) => 1 <= n <= |found| && Foldable(found[..n - 1]) && !Foldable(found[..n])
  }

  /** One more line after some that were replayed. */
  function Onward(r: Result<Entries, nat>, one: Option<Record>, n: nat): Result<Entries, nat> {
    if r.Err? then r
    else if one.None? then Err(n)
    else
      var applied := Apply(RULES, r.value, one.value);
      if applied.Err? then Err(n) else Ok(applied.value)
  }

  lemma ReplayGoesOn(lines: seq<string>, before: seq<string>, last: string)
    requires lines != [] && before == lines[..|lines| - 1] && last == lines[|lines| - 1]
    ensures ReplayLines(lines) == Onward(ReplayLines(before), ReadLine(last), |lines|)
  {
  }

  lemma FoldGoesOn(found: seq<Option<Record>>, one: Option<Record>)
    requires Foldable(found) && one.Some?
    ensures var all := found + [one];
            && (forall k :: 0 <= k < |all| ==> all[k].Some?)
            && Fold(RULES, RecordsOf(all)) == Apply(RULES, Fold(RULES, RecordsOf(found)).value, one.value)
  {
    assert RecordsOf(found + [one]) == RecordsOf(found) + [one.value];
    FoldSnoc(RULES, RecordsOf(found), one.value);
  }

  lemma TellsOn(found: seq<Option<Record>>, r: Result<Entries, nat>, one: Option<Record>)
    requires Tells(found, r)
    ensures Tells(found + [one], Onward(r, one, |found| + 1))
  {
    var all := found + [one];
    assert all[..|found|] == found && all[..|all|] == all && all[|found|] == one;
    if r.Err? {
      assert all[..r.error] == found[..r.error] && all[..r.error - 1] == found[..r.error - 1];
    } else if one.Some? {
      FoldGoesOn(found, one);
    }
  }

  lemma {:induction false} ReplayTells(lines: seq<string>)
    ensures Tells(Reads(lines), ReplayLines(lines))
    decreases |lines|
  {
    if lines != [] {
      var before, last := lines[..|lines| - 1], lines[|lines| - 1];
      ReplayTells(before);
      ReplayGoesOn(lines, before, last);
      TellsOn(Reads(before), ReplayLines(before), ReadLine(last));
    }
  }

  /**
   A replay succeeds exactly if every line holds a record and the records fold, and gives their fold; else it
   names the first line up to which they do not.
   */
  lemma ReplayExactly(lines: seq<string>)
    ensures Tells(Reads(lines), ReplayLines(lines)) && (ReplayLines(lines).Ok? <==> Foldable(Reads(lines)))
  {
    ReplayTells(lines);
    NotBoth(Reads(lines), ReplayLines(lines));
  }

  lemma NotBoth(found: seq<Option<Record>>, r: Result<Entries, nat>)
    requires Tells(found, r)
    ensures r.Ok? <==> Foldable(found)
  {
    if r.Err? && Foldable(found) { FoldsUpTo(found, r.error); }
  }

  lemma FoldsUpTo(found: seq<Option<Record>>, n: nat)
    requires n <= |found| && Foldable(found)
    ensures Foldable(found[..n])
  {
    assert RecordsOf(found)[..n] == RecordsOf(found[..n]);
    FoldPrefix(RULES, RecordsOf(found), n);
  }

  predicate NotJson(line: string) { line != "" && Json.Parse(line).None? }

  /** Behind a torn tail the last whole line is passed over if it is not JSON. */
  predicate PassesOver(lines: seq<string>, torn: bool) {
    torn && lines != [] && NotJson(lines[|lines| - 1])
  }

  function ReplayTorn(lines: seq<string>, torn: bool): Result<Entries, nat> {
    ReplayLines(if PassesOver(lines, torn) then lines[..|lines| - 1] else lines)
  }

  function LinesOf(bytes: seq<Byte>): seq<string> { Lines(Decode(bytes[..Boundary(bytes)])) }
  predicate Torn(bytes: seq<Byte>) { Boundary(bytes) < |bytes| }

  function Replay(bytes: seq<Byte>): Result<Entries, nat> { ReplayTorn(LinesOf(bytes), Torn(bytes)) }

  // --- the journal of a run ---

  function Text(log: seq<Record>): string {
    if log == [] then "" else Text(log[..|log| - 1]) + (Line(log[|log| - 1]) + "\n")
  }

  function Bytes(log: seq<Record>): seq<Byte> {
    if log == [] then [] else Bytes(log[..|log| - 1]) + LineBytes(log[|log| - 1])
  }

  ghost predicate Sound(log: seq<Record>) {
    (forall k :: 0 <= k < |log| ==> WellFormed(log[k])) && Fold(RULES, log).Ok?
  }

  /** The number of records that the first `n` bytes hold completely, newline included. */
  function Whole(log: seq<Record>, n: nat): (k: nat)
    ensures k <= |log|
  {
    if log == [] then 0 else if |Bytes(log)| <= n then |log| else Whole(log[..|log| - 1], n)
  }

  lemma {:induction false} BytesOfText(log: seq<Record>)
    ensures Bytes(log) == Encode(Text(log))
  {
    if log != [] {
      BytesOfText(log[..|log| - 1]);
      EncodeConcat(Text(log[..|log| - 1]), Line(log[|log| - 1]) + "\n");
    }
  }

  lemma {:induction false} LinesOfLine(start: string, line: string, rest: string)
    requires '\n' !in line
    ensures LinesFrom(start, line + "\n" + rest) == [start + line] + LinesFrom("", rest)
    decreases |line|
  {
    var text := line + "\n" + rest;
    if line == "" {
      assert text[0] == '\n' && text[1..] == rest && start + line == start;
    } else {
      assert text[0] == line[0] && text[1..] == line[1..] + "\n" + rest;
      assert line[0] in line && forall c :: c in line[1..] ==> c in line;
      LinesOfLine(start + [line[0]], line[1..], rest);
      assert start + [line[0]] + line[1..] == start + line;
    }
  }

  lemma {:induction false} LinesConcat(start: string, a: string, b: string)
    requires a != "" && a[|a| - 1] == '\n'
    ensures LinesFrom(start, a + b) == LinesFrom(start, a) + LinesFrom("", b)
    decreases |a|
  {
    assert (a + b)[1..] == a[1..] + b && (a + b)[0] == a[0];
    if |a| == 1 {
      assert a[1..] == "" && LinesFrom("", a[1..]) == [];
      assert a[1..] + b == b;
    } else if a[0] == '\n' {
      LinesConcat("", a[1..], b);
    } else {
      LinesConcat(start + [a[0]], a[1..], b);
    }
  }

  lemma {:induction false} TextEnds(log: seq<Record>)
    ensures log != [] ==> Text(log) != "" && Text(log)[|Text(log)| - 1] == '\n'
  {
  }

  lemma OneLine(ev: Record)
    requires WellFormed(ev)
    ensures Lines(Line(ev) + "\n") == [Line(ev)]
  {
    LineRoundTrip(ev);
    LinesOfLine("", Line(ev), "");
    assert Line(ev) + "\n" + "" == Line(ev) + "\n" && "" + Line(ev) == Line(ev);
  }

  lemma LinesSnoc(log: seq<Record>, ev: Record)
    requires WellFormed(ev)
    ensures Lines(Text(log + [ev])) == Lines(Text(log)) + [Line(ev)]
  {
    assert (log + [ev])[..|log|] == log;
    OneLine(ev);
    TextEnds(log);
    if log == [] {
      assert "" + (Line(ev) + "\n") == Line(ev) + "\n";
    } else {
      LinesConcat("", Text(log), Line(ev) + "\n");
    }
  }

  lemma ReplaySnoc(lines: seq<string>, entries: Entries, ev: Record)
    requires WellFormed(ev) && ReplayLines(lines) == Ok(entries) && Apply(RULES, entries, ev).Ok?
    ensures ReplayLines(lines + [Line(ev)]) == Ok(Apply(RULES, entries, ev).value)
  {
    LineRoundTrip(ev);
    assert (lines + [Line(ev)])[..|lines|] == lines;
  }

  /** Replaying what a log wrote folds the log. */
  lemma {:induction false} ReplayIsFold(log: seq<Record>)
    requires Sound(log)
    ensures ReplayLines(Lines(Text(log))) == Ok(Fold(RULES, log).value)
    decreases |log|
  {
    if log != [] {
      var before, ev := SoundBefore(log);
      ReplayIsFold(before);
      ReplayNext(before, ev);
    }
  }

  lemma SoundBefore(log: seq<Record>) returns (before: seq<Record>, ev: Record)
    requires Sound(log) && log != []
    ensures log == before + [ev] && Sound(before) && WellFormed(ev)
  {
    before, ev := log[..|log| - 1], log[|log| - 1];
    SoundPrefix(log, before);
  }

  lemma SoundPrefix(log: seq<Record>, before: seq<Record>)
    requires Sound(log) && before <= log
    ensures Sound(before)
  {
    assert before == log[..|before|];
    FoldPrefix(RULES, log, |before|);
  }

  lemma ReplayNext(before: seq<Record>, ev: Record)
    requires Fold(RULES, before).Ok? && Fold(RULES, before + [ev]).Ok? && WellFormed(ev)
    requires ReplayLines(Lines(Text(before))) == Ok(Fold(RULES, before).value)
    ensures ReplayLines(Lines(Text(before + [ev]))) == Ok(Fold(RULES, before + [ev]).value)
  {
    FoldSnoc(RULES, before, ev);
    LinesSnoc(before, ev);
    ReplaySnoc(Lines(Text(before)), Fold(RULES, before).value, ev);
  }

  // --- prefixes ---

  lemma {:induction false} BoundaryOf(head: seq<Byte>, tail: seq<Byte>)
    requires (head == [] || head[|head| - 1] == NEWLINE) && NEWLINE !in tail
    ensures Boundary(head + tail) == |head|
    decreases |tail|
  {
    if tail == [] {
      assert head + tail == head;
    } else {
      assert tail[|tail| - 1] in tail;
      BoundaryOf(head, tail[..|tail| - 1]);
      assert (head + tail)[..|head + tail| - 1] == head + tail[..|tail| - 1];
    }
  }

  lemma LineBytesEnd(ev: Record)
    requires WellFormed(ev)
    ensures LineBytes(ev) == Encode(Line(ev)) + [NEWLINE] && NEWLINE !in Encode(Line(ev))
  {
    LineRoundTrip(ev);
    EncodeConcat(Line(ev), "\n");
    NewlineOnlyForNewline(Line(ev));
    assert Encode("\n") == [NEWLINE];
  }

  lemma {:induction false} BytesEnd(log: seq<Record>)
    requires forall k :: 0 <= k < |log| ==> WellFormed(log[k])
    ensures Bytes(log) == [] || Bytes(log)[|Bytes(log)| - 1] == NEWLINE
  {
    if log != [] { LineBytesEnd(log[|log| - 1]); }
  }

  /** A prefix of the file is its whole records and part of one more, without that one's newline. */
  lemma {:induction false} PrefixIsWhole(log: seq<Record>, n: nat)
    requires (forall k :: 0 <= k < |log| ==> WellFormed(log[k])) && n <= |Bytes(log)|
    ensures var whole := log[..Whole(log, n)];
            && Bytes(whole) <= Bytes(log)[..n] && NEWLINE !in Bytes(log)[..n][|Bytes(whole)|..]
    decreases |log|
  {
    if log == [] || |Bytes(log)| <= n {
      assert Bytes(log)[..n] == Bytes(log) && log[..Whole(log, n)] == log;
    } else {
      var before, ev := log[..|log| - 1], log[|log| - 1];
      LineBytesEnd(ev);
      var head := Bytes(before);
      if |head| <= n {
        assert Whole(before, n) == |before| && log[..Whole(log, n)] == before;
        var part := Bytes(log)[..n];
        assert part == head + LineBytes(ev)[..n - |head|];
        assert part[|head|..] == Encode(Line(ev))[..n - |head|];
      } else {
        PrefixIsWhole(before, n);
        assert Bytes(log)[..n] == head[..n];
        assert log[..Whole(log, n)] == before[..Whole(before, n)];
      }
    }
  }

  lemma CutPrefix(log: seq<Record>, n: nat)
    requires (forall k :: 0 <= k < |log| ==> WellFormed(log[k])) && n <= |Bytes(log)|
    ensures var part := Bytes(log)[..n]; part[..Boundary(part)] == Bytes(log[..Whole(log, n)])
  {
    PrefixIsWhole(log, n);
    var whole := log[..Whole(log, n)];
    BytesEnd(whole);
    CutAfter(Bytes(whole), Bytes(log)[..n]);
  }

  lemma CutAfter(head: seq<Byte>, part: seq<Byte>)
    requires head <= part && (head == [] || head[|head| - 1] == NEWLINE) && NEWLINE !in part[|head|..]
    ensures part[..Boundary(part)] == head
  {
    assert part == head + part[|head|..];
    BoundaryOf(head, part[|head|..]);
  }

  lemma PrefixLines(log: seq<Record>, n: nat)
    requires Sound(log) && n <= |Bytes(log)|
    ensures var whole := log[..Whole(log, n)];
            && Fold(RULES, whole).Ok? && ReplayLines(LinesOf(Bytes(log)[..n])) == Ok(Fold(RULES, whole).value)
  {
    var whole := log[..Whole(log, n)];
    CutPrefix(log, n);
    FoldPrefix(RULES, log, Whole(log, n));
    BytesOfText(whole);
    RoundTrip(Text(whole));
    ReplayIsFold(whole);
  }

  /**
   Crash recovery: any prefix of the bytes that a journal ever wrote opens, and gives exactly the fold
   of the records whose newline is in the prefix.
   */
  lemma PrefixRecovers(log: seq<Record>, n: nat)
    requires Sound(log) && n <= |Bytes(log)|
    ensures Fold(RULES, log[..Whole(log, n)]).Ok?
    ensures Replay(Bytes(log)[..n]) == Ok(Fold(RULES, log[..Whole(log, n)]).value)
  {
    PrefixLines(log, n);
    PrefixDropsNothing(log, n);
  }

  /** Opening passes over a line that it leaves in the file. */
  predicate Drops(bytes: seq<Byte>) {
    PassesOver(LinesOf(bytes), Torn(bytes)) && Replay(bytes).Ok?
  }

  lemma {:induction false} BoundaryEnds(bytes: seq<Byte>)
    ensures var kept := bytes[..Boundary(bytes)]; kept == [] || kept[|kept| - 1] == NEWLINE
  {
    if bytes != [] && bytes[|bytes| - 1] != NEWLINE {
      BoundaryEnds(bytes[..|bytes| - 1]);
      assert bytes[..|bytes| - 1][..Boundary(bytes)] == bytes[..Boundary(bytes)];
    } else {
      assert bytes[..Boundary(bytes)] == bytes;
    }
  }

  /**
   Opening cuts the torn tail off, so the next one finds the kept bytes. It finds the same entries, or the
   same corrupt record, unless the last whole line was passed over; that line then fails it.
   */
  lemma ReopeningAgrees(bytes: seq<Byte>)
    ensures var kept := bytes[..Boundary(bytes)];
            && (Replay(kept) == Replay(bytes) <==> !Drops(bytes))
            && (Drops(bytes) ==> Replay(kept) == Err(|LinesOf(bytes)|))
  {
    var kept, lines := bytes[..Boundary(bytes)], LinesOf(bytes);
    BoundaryEnds(bytes);
    BoundaryOf(kept, []);
    assert kept + [] == kept && kept[..|kept|] == kept;
    assert Replay(kept) == ReplayLines(lines);
  }

  /** A line that is not JSON before a torn tail: the file opens, without entries, and then never again. */
  lemma DroppedLineFailsLater()
    ensures var bytes := Encode("x\ny"); Replay(bytes) == Ok(map[]) && Replay(bytes[..Boundary(bytes)]) == Err(1)
  {
    var bytes := Encode("x\ny");
    assert bytes == ['x' as Byte, NEWLINE, 'y' as Byte];
    assert Boundary(bytes) == 2 && bytes[..2] == Encode("x\n");
    RoundTrip("x\n");
    LinesOfLine("", "x", "");
    assert LinesOf(bytes) == ["x"] by { assert "x" + "\n" + "" == "x\n" && "" + "x" == "x"; }
    ReopeningAgrees(bytes);
  }

  /** No prefix of what a journal wrote loses a line so. */
  lemma PrefixDropsNothing(log: seq<Record>, n: nat)
    requires Sound(log) && n <= |Bytes(log)|
    ensures !Drops(Bytes(log)[..n])
  {
    PrefixLines(log, n);
    var lines := LinesOf(Bytes(log)[..n]);
    assert lines != [] ==> ReadLine(lines[|lines| - 1]).Some?;
  }

  /** A prefix that holds all the bytes of the first `k` records recovers at least those. */
  lemma {:induction false} WholeCovers(log: seq<Record>, k: nat, n: nat)
    requires k <= |log| && |Bytes(log[..k])| <= n
    ensures k <= Whole(log, n)
    decreases |log|
  {
    if k < |log| {
      if |Bytes(log)| > n {
        assert log[..|log| - 1][..k] == log[..k];
        WholeCovers(log[..|log| - 1], k, n);
      }
    } else {
      assert log[..k] == log;
    }
  }
}
