/**
 JSON values, the text the journal writes for them and a parser for that text, and the canonical text
 by which payloads are compared.
 */
module Json {
  import opened Wrappers
  import opened Chars

  /** A number stands for its shortest decimal text, which names it; fields are in insertion order. */
  datatype Value =
    | Null
    | Bool(flag: bool)
    | Num(text: string)
    | Str(chars: string)
    | Arr(items: seq<Value>)
    | Obj(fields: seq<Field>)
  datatype Field = Field(key: string, value: Value)

  predicate Digit(c: char) { '0' <= c <= '9' }
  predicate NumberChar(c: char) { Digit(c) || c == '-' || c == '+' || c == '.' || c == 'e' || c == 'E' }

  predicate NumberText(t: string) {
    t != "" && (Digit(t[0]) || t[0] == '-') && forall k :: 0 <= k < |t| ==> NumberChar(t[k])
  }

  function Keys(fields: seq<Field>): set<string> { set f | f in fields :: f.key }

  predicate Distinct(fields: seq<Field>) {
    forall j, k :: 0 <= j < k < |fields| ==> fields[j].key != fields[k].key
  }

  /** Values a program can hold: numbers have number texts, and an object has each key once. */
  predicate Valid(v: Value) {
    match v
    case Num(text) => NumberText(text)
    case Arr(items) => forall k :: 0 <= k < |items| ==> Valid(items[k])
    case Obj(fields) => Distinct(fields) && forall k :: 0 <= k < |fields| ==> Valid(fields[k].value)
    case _ => true
  }

  // --- text ---

  const BACKSPACE := '\U{8}'
  const FORM_FEED := '\U{c}'

  function HexDigit(n: nat): char
    requires n < 16
  {
    "0123456789abcdef"[n]
  }

  function EscapeChar(c: char): (text: string)
    ensures text != "" && text[0] != '"' && (forall k :: 0 <= k < |text| ==> text[k] >= ' ')
  {
    if c == '"' then "\\\""
    else if c == '\\' then "\\\\"
    else if c == BACKSPACE then "\\b"
    else if c == '\t' then "\\t"
    else if c == '\n' then "\\n"
    else if c == FORM_FEED then "\\f"
    else if c == '\r' then "\\r"
    else if c < ' ' then "\\u00" + [HexDigit(c as int / 16), HexDigit(c as int % 16)]
    else [c]
  }

  function Escape(s: string): (text: string) {
    if s == "" then "" else EscapeChar(s[0]) + Escape(s[1..])
  }

  function Quote(s: string): string { "\"" + Escape(s) + "\"" }

  function Stringify(v: Value): string {
    match v
    case Null => "null"
    case Bool(flag) => if flag then "true" else "false"
    case Num(text) => text
    case Str(chars) => Quote(chars)
    case Arr(items) => "[" + StringifyItems(items) + "]"
    case Obj(fields) => "{" + StringifyFields(fields) + "}"
  }

  function StringifyItems(items: seq<Value>): string {
    if items == [] then ""
    else Stringify(items[0]) + if |items| == 1 then "" else "," + StringifyItems(items[1..])
  }

  function StringifyFields(fields: seq<Field>): string {
    if fields == [] then ""
    else Quote(fields[0].key) + ":" + Stringify(fields[0].value) + if |fields| == 1 then ""
        else "," + StringifyFields(fields[1..])
  }

  // --- parser ---

  function HexValue(c: char): Option<nat> {
    if Digit(c) then Some(c as int - '0' as int)
    else if 'a' <= c <= 'f' then Some(c as int - 'a' as int + 10)
    else if 'A' <= c <= 'F' then Some(c as int - 'A' as int + 10)
    else None
  }

  /** The character after a backslash, and how many characters the escape takes after it. */
  function Unescape(s: string): (r: Option<(char, nat)>)
    ensures r.Some? ==> 1 <= r.value.1 <= |s|
  {
    if s == "" then None
    else if s[0] == '"' || s[0] == '\\' || s[0] == '/' then Some((s[0], 1))
    else if s[0] == 'b' then Some((BACKSPACE, 1))
    else if s[0] == 't' then Some(('\t', 1))
    else if s[0] == 'n' then Some(('\n', 1))
    else if s[0] == 'f' then Some((FORM_FEED, 1))
    else if s[0] == 'r' then Some(('\r', 1))
    else if s[0] == 'u' && |s| >= 5 then
      var a, b, c, d := HexValue(s[1]), HexValue(s[2]), HexValue(s[3]), HexValue(s[4]);
      if a == None || b == None || c == None || d == None then None
      else
        var code := a.value * 4096 + b.value * 256 + c.value * 16 + d.value;
        if code < 0xD800 || 0xE000 <= code < 0x10000 then Some((code as char, 5)) else None
    else None
  }

  /** The rest of a string literal after its opening quote. */
  function ParseChars(s: string): (r: Option<(string, string)>)
    ensures r.Some? ==> |r.value.1| < |s|
  {
    if s == "" || s[0] < ' ' then None
    else if s[0] == '"' then Some(("", s[1..]))
    else
      var step := if s[0] == '\\' then Unescape(s[1..]) else Some((s[0], 0));
      if step == None then None
      else
        var rest := ParseChars(s[1 + step.value.1..]);
        if rest == None then None else Some(([step.value.0] + rest.value.0, rest.value.1))
  }

  function NumberRun(s: string): (n: nat)
    ensures n <= |s|
  {
    if s == "" || !NumberChar(s[0]) then 0 else 1 + NumberRun(s[1..])
  }

  predicate Starts(s: string, c: char) { s != "" && s[0] == c }

  function ParseValue(s: string): (r: Option<(Value, string)>)
    ensures r.Some? ==> |r.value.1| < |s|
    decreases |s|, 0
  {
    if s == "" then None
    else if s[0] == '"' then
      var r := ParseChars(s[1..]);
      if r == None then None else Some((Str(r.value.0), r.value.1))
    else if s[0] == '[' then
      if Starts(s[1..], ']') then Some((Arr([]), s[2..]))
      else
        var r := ParseItems(s[1..]);
        if r == None then None else Some((Arr(r.value.0), r.value.1))
    else if s[0] == '{' then
      if Starts(s[1..], '}') then Some((Obj([]), s[2..]))
      else
        var r := ParseFields(s[1..]);
        if r == None then None else Some((Obj(r.value.0), r.value.1))
    else if Digit(s[0]) || s[0] == '-' then Some((Num(s[..NumberRun(s)]), s[NumberRun(s)..]))
    else ParseWord(s)
  }

  function ParseWord(s: string): (r: Option<(Value, string)>)
    ensures r.Some? ==> |r.value.1| < |s|
  {
    if |s| >= 4 && s[..4] == "null" then Some((Null, s[4..]))
    else if |s| >= 4 && s[..4] == "true" then Some((Bool(true), s[4..]))
    else if |s| >= 5 && s[..5] == "false" then Some((Bool(false), s[5..]))
    else None
  }

  function ParseItems(s: string): (r: Option<(seq<Value>, string)>)
    ensures r.Some? ==> |r.value.1| < |s|
    decreases |s|, 1
  {
    var first := ParseValue(s);
    if first == None then None
    else if Starts(first.value.1, ']') then Some(([first.value.0], first.value.1[1..]))
    else if Starts(first.value.1, ',') then
      var rest := ParseItems(first.value.1[1..]);
      if rest == None then None else Some(([first.value.0] + rest.value.0, rest.value.1))
    else None
  }

  function ParseFields(s: string): (r: Option<(seq<Field>, string)>)
    ensures r.Some? ==> |r.value.1| < |s|
    decreases |s|, 1
  {
    if !Starts(s, '"') then None
    else
      var key := ParseChars(s[1..]);
      if key == None || !Starts(key.value.1, ':') then None
      else
        var first := ParseValue(key.value.1[1..]);
        if first == None then None
        else
          var field := Field(key.value.0, first.value.0);
          if Starts(first.value.1, '}') then Some(([field], first.value.1[1..]))
          else if Starts(first.value.1, ',') then
            var rest := ParseFields(first.value.1[1..]);
            if rest == None then None else Some(([field] + rest.value.0, rest.value.1))
          else None
  }

  function Parse(s: string): Option<Value> {
    var r := ParseValue(s);
    if r == None || r.value.1 != "" then None else Some(r.value.0)
  }

  // --- round trip ---

  /** What may follow a value: nothing, or a delimiter, which no number contains. */
  predicate Ends(rest: string) { rest == "" || rest[0] == ',' || rest[0] == ']' || rest[0] == '}' }

  predicate ShortEscape(c: char) {
    c == '"' || c == '\\' || c == BACKSPACE || c == '\t' || c == '\n' || c == FORM_FEED || c == '\r'
  }

  lemma HexRoundTrip(n: nat)
    requires n < 16
    ensures HexValue(HexDigit(n)) == Some(n)
  {
  }

  lemma ControlEscape(c: char, rest: string)
    requires c < ' ' && !ShortEscape(c)
    ensures |EscapeChar(c)| == 6 && EscapeChar(c)[0] == '\\' && Unescape(EscapeChar(c)[1..] + rest) == Some((c, 5))
  {
    var hi, lo := c as int / 16, c as int % 16;
    HexRoundTrip(hi);
    HexRoundTrip(lo);
    assert EscapeChar(c) == ['\\', 'u', '0', '0', HexDigit(hi), HexDigit(lo)];
    assert EscapeChar(c)[1..] + rest == ['u', '0', '0', HexDigit(hi), HexDigit(lo)] + rest;
  }

  lemma TwoCharEscape(c: char, rest: string)
    requires ShortEscape(c)
    ensures |EscapeChar(c)| == 2 && EscapeChar(c)[0] == '\\' && Unescape(EscapeChar(c)[1..] + rest) == Some((c, 1))
  {
    assert EscapeChar(c)[1..] + rest == [EscapeChar(c)[1]] + rest;
  }

  lemma CharRoundTrip(c: char, rest: string, tail: string, end: string)
    requires ParseChars(rest) == Some((tail, end))
    ensures ParseChars(EscapeChar(c) + rest) == Some(([c] + tail, end))
  {
    var text := EscapeChar(c);
    var s := text + rest;
    assert s[|text|..] == rest && s[1..] == text[1..] + rest;
    if ShortEscape(c) {
      TwoCharEscape(c, rest);
    } else if c < ' ' {
      ControlEscape(c, rest);
    } else {
      assert text == [c];
    }
  }

  lemma EscapeFirst(chars: string, rest: string)
    requires chars != ""
    ensures Escape(chars) + rest == EscapeChar(chars[0]) + (Escape(chars[1..]) + rest)
  {
    Assoc(EscapeChar(chars[0]), Escape(chars[1..]), rest);
  }

  lemma EmptyChars(rest: string)
    ensures ParseChars("" + ("\"" + rest)) == Some(("", rest))
  {
    assert "" + ("\"" + rest) == "\"" + rest && ("\"" + rest)[1..] == rest;
  }

  lemma {:induction false} CharsRoundTrip(chars: string, rest: string)
    ensures ParseChars(Escape(chars) + ("\"" + rest)) == Some((chars, rest))
  {
    if chars == "" {
      EmptyChars(rest);
    } else {
      var first, others := chars[0], chars[1..];
      CharsRoundTrip(others, rest);
      EscapeFirst(chars, "\"" + rest);
      assert chars == [first] + others;
      CharsGoOn(first, others, chars, Escape(others) + ("\"" + rest), Escape(chars) + ("\"" + rest), rest);
    }
  }

  lemma CharsGoOn(first: char, others: string, chars: string, after: string, whole: string, rest: string)
    requires chars == [first] + others && whole == EscapeChar(first) + after
             && ParseChars(after) == Some((others, rest))
    ensures ParseChars(whole) == Some((chars, rest))
  {
    CharRoundTrip(first, after, others, rest);
  }

  lemma StringRoundTrip(chars: string, rest: string)
    ensures Starts(Quote(chars) + rest, '"') && ParseChars((Quote(chars) + rest)[1..]) == Some((chars, rest))
  {
    CharsRoundTrip(chars, rest);
    assert (Quote(chars) + rest)[1..] == Escape(chars) + ("\"" + rest);
  }

  lemma {:induction false} NumberRoundTrip(text: string, rest: string)
    requires (forall k :: 0 <= k < |text| ==> NumberChar(text[k])) && Ends(rest)
    ensures NumberRun(text + rest) == |text|
  {
    if text == "" {
      assert text + rest == rest;
    } else {
      NumberRoundTrip(text[1..], rest);
      assert (text + rest)[1..] == text[1..] + rest;
    }
  }

  lemma WordRoundTrip(v: Value, rest: string)
    requires v.Null? || v.Bool?
    ensures ParseValue(Stringify(v) + rest) == Some((v, rest))
  {
    var word := Stringify(v);
    var s := word + rest;
    assert s[..|word|] == word && s[|word|..] == rest;
    if v == Bool(false) { assert s[..4] == "fals"; }
  }

  lemma NumRoundTrip(text: string, rest: string)
    requires NumberText(text) && Ends(rest)
    ensures ParseValue(text + rest) == Some((Num(text), rest))
  {
    NumberRoundTrip(text, rest);
    assert (text + rest)[..|text|] == text && (text + rest)[|text|..] == rest;
  }

  lemma {:induction false} StringifyBegins(v: Value)
    requires Valid(v)
    ensures Stringify(v) != "" && !Ends(Stringify(v))
  {
  }

  /** Parsing the text of a value gives the value back, whatever follows. */
  lemma {:induction false} ValueRoundTrip(v: Value, rest: string)
    requires Valid(v) && Ends(rest)
    ensures ParseValue(Stringify(v) + rest) == Some((v, rest))
    decreases v, 0
  {
    match v
    case Null => WordRoundTrip(v, rest);
    case Bool(_) => WordRoundTrip(v, rest);
    case Num(text) => NumRoundTrip(text, rest);
    case Str(chars) => StringRoundTrip(chars, rest);
    case Arr(items) => ArrRoundTrip(items, rest);
    case Obj(fields) => ObjRoundTrip(fields, rest);
  }

  lemma ArrRoundTrip(items: seq<Value>, rest: string)
    requires forall k :: 0 <= k < |items| ==> Valid(items[k])
    ensures ParseValue("[" + StringifyItems(items) + "]" + rest) == Some((Arr(items), rest))
    decreases items, 1
  {
    var s := "[" + StringifyItems(items) + "]" + rest;
    var inner := StringifyItems(items) + ("]" + rest);
    assert s[0] == '[' && s[1..] == inner;
    if items == [] {
      assert inner == "]" + rest && s[2..] == rest;
    } else {
      StringifyBegins(items[0]);
      assert inner[0] == Stringify(items[0])[0];
      ItemsRoundTrip(items, rest);
    }
  }

  lemma ObjRoundTrip(fields: seq<Field>, rest: string)
    requires forall k :: 0 <= k < |fields| ==> Valid(fields[k].value)
    ensures ParseValue("{" + StringifyFields(fields) + "}" + rest) == Some((Obj(fields), rest))
    decreases fields, 1
  {
    var inner := StringifyFields(fields) + ("}" + rest);
    Opened("{", StringifyFields(fields), "}", rest);
    if fields == [] {
      assert inner == "}" + rest && ("{" + inner)[2..] == rest;
    } else {
      FieldsBegin(fields, rest);
      FieldsRoundTrip(fields, rest);
    }
    ObjParses(inner, fields, rest);
  }

  lemma Opened(open: string, text: string, close: string, rest: string)
    ensures open + text + close + rest == open + (text + (close + rest))
  {
  }

  lemma FieldsBegin(fields: seq<Field>, rest: string)
    requires fields != []
    ensures var inner := StringifyFields(fields) + ("}" + rest); inner != "" && inner[0] == '"'
  {
  }

  lemma ObjParses(inner: string, fields: seq<Field>, rest: string)
    requires if fields == [] then Starts(inner, '}') && ("{" + inner)[2..] == rest
             else Starts(inner, '"') && ParseFields(inner) == Some((fields, rest))
    ensures ParseValue("{" + inner) == Some((Obj(fields), rest))
  {
    assert ("{" + inner)[1..] == inner;
  }

  lemma {:induction false} ItemsRoundTrip(items: seq<Value>, rest: string)
    requires items != [] && forall k :: 0 <= k < |items| ==> Valid(items[k])
    ensures ParseItems(StringifyItems(items) + ("]" + rest)) == Some((items, rest))
    decreases items, 0
  {
    var v, more := items[0], items[1..];
    assert [v] + more == items;
    ItemsFirst(items, rest);
    if |items| == 1 {
      assert [v] == items;
      ValueRoundTrip(v, "]" + rest);
      LastItem(v, rest);
    } else {
      var after := StringifyItems(more) + ("]" + rest);
      ValueRoundTrip(v, "," + after);
      ItemsRoundTrip(more, rest);
      NextItem(v, after, more, rest);
    }
  }

  lemma ItemsFirst(items: seq<Value>, rest: string)
    requires items != []
    ensures StringifyItems(items) + ("]" + rest)
         == Stringify(items[0]) + if |items| == 1 then "]" + rest else "," + (StringifyItems(items[1..]) + ("]" + rest))
  {
    if |items| == 1 {
      assert Stringify(items[0]) + "" == Stringify(items[0]);
    } else {
      Assoc(Stringify(items[0]), "," + StringifyItems(items[1..]), "]" + rest);
      Assoc(",", StringifyItems(items[1..]), "]" + rest);
    }
  }

  lemma LastItem(v: Value, rest: string)
    requires ParseValue(Stringify(v) + ("]" + rest)) == Some((v, "]" + rest))
    ensures ParseItems(Stringify(v) + ("]" + rest)) == Some(([v], rest))
  {
    assert ("]" + rest)[1..] == rest;
  }

  lemma NextItem(v: Value, after: string, more: seq<Value>, rest: string)
    requires ParseValue(Stringify(v) + ("," + after)) == Some((v, "," + after))
             && ParseItems(after) == Some((more, rest))
    ensures ParseItems(Stringify(v) + ("," + after)) == Some(([v] + more, rest))
  {
    assert ("," + after)[1..] == after;
  }

  /** Parsing one field, up to what follows its value. */
  lemma FieldRoundTrip(f: Field, after: string)
    requires Valid(f.value) && Ends(after)
    ensures ReadsField(FieldText(f, after), f, after)
    decreases f, 1
  {
    var colon := ":" + (Stringify(f.value) + after);
    StringRoundTrip(f.key, colon);
    assert colon[1..] == Stringify(f.value) + after;
    ValueRoundTrip(f.value, after);
  }

  lemma {:induction false} FieldsRoundTrip(fields: seq<Field>, rest: string)
    requires fields != [] && forall k :: 0 <= k < |fields| ==> Valid(fields[k].value)
    ensures ParseFields(StringifyFields(fields) + ("}" + rest)) == Some((fields, rest))
    decreases fields, 0
  {
    var f, more := fields[0], fields[1..];
    assert [f] + more == fields;
    FieldsFirst(fields, rest);
    if |fields| == 1 {
      assert [f] == fields;
      FieldRoundTrip(f, "}" + rest);
      LastField(f, rest);
    } else {
      var after := StringifyFields(more) + ("}" + rest);
      FieldRoundTrip(f, "," + after);
      FieldsRoundTrip(more, rest);
      NextField(f, after, more, rest);
    }
  }

  /** Reading one field of a text leaves `after`. */
  predicate ReadsField(s: string, f: Field, after: string) {
    && Starts(s, '"') && ParseChars(s[1..]).Some? && ParseChars(s[1..]).value.0 == f.key
    && Starts(ParseChars(s[1..]).value.1, ':')
    && ParseValue(ParseChars(s[1..]).value.1[1..]) == Some((f.value, after))
  }

  function FieldText(f: Field, after: string): string { Quote(f.key) + (":" + (Stringify(f.value) + after)) }

  lemma LastField(f: Field, rest: string)
    requires ReadsField(FieldText(f, "}" + rest), f, "}" + rest)
    ensures ParseFields(FieldText(f, "}" + rest)) == Some(([f], rest))
  {
    assert ("}" + rest)[1..] == rest;
  }

  lemma NextField(f: Field, after: string, more: seq<Field>, rest: string)
    requires ReadsField(FieldText(f, "," + after), f, "," + after) && ParseFields(after) == Some((more, rest))
    ensures ParseFields(FieldText(f, "," + after)) == Some(([f] + more, rest))
  {
    assert ("," + after)[1..] == after;
  }

  lemma FieldsFirst(fields: seq<Field>, rest: string)
    requires fields != []
    ensures var f := fields[0];
            var after := if |fields| == 1 then "}" + rest else "," + (StringifyFields(fields[1..]) + ("}" + rest));
            StringifyFields(fields) + ("}" + rest) == FieldText(f, after)
  {
    var f := fields[0];
    var more := if |fields| == 1 then "" else "," + StringifyFields(fields[1..]);
    var end := "}" + rest;
    assert StringifyFields(fields) == Quote(f.key) + ":" + Stringify(f.value) + more;
    Assoc(Quote(f.key) + ":" + Stringify(f.value), more, end);
    Assoc(Quote(f.key) + ":", Stringify(f.value), more + end);
    Assoc(Quote(f.key), ":", Stringify(f.value) + (more + end));
    if |fields| > 1 { Assoc(",", StringifyFields(fields[1..]), end); } else { assert more + end == end; }
  }

  lemma RoundTrip(v: Value)
    requires Valid(v)
    ensures Parse(Stringify(v)) == Some(v)
  {
    ValueRoundTrip(v, "");
    assert Stringify(v) + "" == Stringify(v);
  }

  // --- a record is one line ---

  predicate OneLine(s: string) { forall k :: 0 <= k < |s| ==> s[k] >= ' ' }

  lemma {:induction false} QuoteIsOneLine(s: string)
    ensures OneLine(Escape(s)) && OneLine(Quote(s))
  {
    if s != "" { QuoteIsOneLine(s[1..]); }
  }

  /** The text of a value has no control character, so no newline. */
  lemma {:induction false} TextIsOneLine(v: Value)
    requires Valid(v)
    ensures OneLine(Stringify(v))
    decreases v, 0
  {
    match v
    case Str(chars) => QuoteIsOneLine(chars);
    case Arr(items) => ItemsAreOneLine(items);
    case Obj(fields) => FieldsAreOneLine(fields);
    case Num(text) => forall k | 0 <= k < |text| ensures text[k] >= ' ' { assert NumberChar(text[k]); }
    case _ =>
  }

  lemma {:induction false} ItemsAreOneLine(items: seq<Value>)
    requires forall k :: 0 <= k < |items| ==> Valid(items[k])
    ensures OneLine(StringifyItems(items))
    decreases items
  {
    if items != [] {
      TextIsOneLine(items[0]);
      ItemsAreOneLine(items[1..]);
    }
  }

  lemma {:induction false} FieldsAreOneLine(fields: seq<Field>)
    requires forall k :: 0 <= k < |fields| ==> Valid(fields[k].value)
    ensures OneLine(StringifyFields(fields))
    decreases fields
  {
    if fields != [] {
      QuoteIsOneLine(fields[0].key);
      TextIsOneLine(fields[0].value);
      FieldsAreOneLine(fields[1..]);
    }
  }
}
