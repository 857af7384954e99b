/**
 The proxy's view of an HTML document: a simplified tokenizer (compare section 13.2.5 of the WHATWG HTML
 standard), lossless, so that the text of the tokens is the document. Case is ASCII case.
 */
module Html {
  import opened Wrappers
  import opened Chars

  datatype Quoting = Unquoted | Quoted(mark: char, closed: bool)

  /** An attribute value: the whitespace before it, how it is quoted, and its text. */
  datatype Value = Value(space: string, quoting: Quoting, text: string)

  /** A piece of a start tag after its name. A name may be empty before an equals sign. */
  datatype Piece = Gap(text: string) | Slash | Attribute(name: string, space: string, value: Option<Value>)
  datatype Ending = Closed | SelfClosed | Cut

  datatype Token =
    | Run(text: string) // up to the next `<`
    | LessThan // a `<` that opens nothing
    | Comment(text: string)
    | Declaration(text: string)
    | Tag(name: string, pieces: seq<Piece>, ending: Ending)
    | RawText(name: string, text: string) // the body of the raw-text element just opened

  // --- text of tokens, before the text that follows them ---

  function CloseMark(q: Quoting, rest: string): string
    requires q.Quoted?
  {
    if q.closed then [q.mark] + rest else rest
  }

  function ValueText(v: Value, rest: string): string {
    match v.quoting
    case Unquoted => v.space + (v.text + rest)
    case Quoted(mark, _) => v.space + ([mark] + (v.text + CloseMark(v.quoting, rest)))
  }

  function PieceText(p: Piece, rest: string): string {
    match p
    case Gap(text) => text + rest
    case Slash => "/" + rest
    case Attribute(name, space, value) => name + (space + if value.None? then rest
                                                  else "=" + ValueText(value.value, rest))
  }

  function PiecesText(ps: seq<Piece>, rest: string): string {
    if ps == [] then rest else PieceText(ps[0], PiecesText(ps[1..], rest))
  }

  function EndingText(e: Ending, rest: string): string {
    match e
    case Closed => ">" + rest
    case SelfClosed => "/>" + rest
    case Cut => rest
  }

  function TokenText(t: Token, rest: string): string {
    match t
    case Run(text) => text + rest
    case LessThan => "<" + rest
    case Comment(text) => text + rest
    case Declaration(text) => text + rest
    case Tag(name, pieces, ending) => "<" + (name + PiecesText(pieces, EndingText(ending, rest)))
    case RawText(_, text) => text + rest
  }

  function Text(ts: seq<Token>): string {
    if ts == [] then "" else TokenText(ts[0], Text(ts[1..]))
  }

  // --- start tags ---

  const TagNameChar: char -> bool := (c: char) => !Space(c) && c != '/' && c != '>'
  const NameChar: char -> bool := (c: char) => !Space(c) && c != '/' && c != '>' && c != '='
  const UnquotedChar: char -> bool := (c: char) => !Space(c) && c != '>'
  const SpaceChar: char -> bool := (c: char) => Space(c)

  function Not(mark: char): char -> bool { (c: char) => c != mark }

  predicate AtEnding(s: string) { s == "" || s[0] == '>' || (s[0] == '/' && |s| > 1 && s[1] == '>') }

  function EndingOf(s: string): Ending
    requires AtEnding(s)
  {
    if s == "" then Cut else if s[0] == '>' then Closed else SelfClosed
  }

  function AfterEnding(s: string): (rest: string)
    requires AtEnding(s)
    ensures |rest| <= |s|
  {
    if s == "" then "" else if s[0] == '>' then s[1..] else s[2..]
  }

  /** The value after an equals sign. */
  function NextValue(s: string): (r: (Value, string))
    ensures |r.1| <= |s|
  {
    var n := Span(SpaceChar, s);
    var space, t := s[..n], s[n..];
    if t != "" && QuoteMark(t[0]) then
      var k := Span(Not(t[0]), t[1..]);
      var closed := k < |t| - 1;
      (Value(space, Quoted(t[0], closed), t[1..1 + k]), if closed then t[k + 2..] else "")
    else
      var k := Span(UnquotedChar, t);
      (Value(space, Unquoted, t[..k]), t[k..])
  }

  /** The attribute whose name ends at `n` and the whitespace after it at `k`. */
  function AttributeAt(s: string, n: nat, k: nat): (r: (Piece, string))
    requires n <= k <= |s|
    ensures |r.1| <= |s| - k
  {
    if k < |s| && s[k] == '=' then
      var v := NextValue(s[k + 1..]);
      (Attribute(s[..n], s[n..k], Some(v.0)), v.1)
    else (Attribute(s[..n], s[n..k], None), s[k..])
  }

  function NameEnd(s: string): (n: nat)
    ensures n <= |s|
  {
    Span(NameChar, s)
  }

  function SpaceEnd(s: string, n: nat): (k: nat)
    requires n <= |s|
    ensures n <= k <= |s|
  {
    n + Span(SpaceChar, s[n..])
  }

  predicate BeginsAttribute(s: string) { !AtEnding(s) && !Space(s[0]) && s[0] != '/' }

  function NextPiece(s: string): (r: (Piece, string))
    requires !AtEnding(s)
    ensures |r.1| < |s|
  {
    if Space(s[0]) then
      var n := Span(SpaceChar, s);
      (Gap(s[..n]), s[n..])
    else if s[0] == '/' then (Slash, s[1..])
    else
      var n := NameEnd(s);
      AttributeAt(s, n, SpaceEnd(s, n))
  }

  function Pieces(s: string): seq<Piece>
    decreases |s|
  {
    if AtEnding(s) then [] else [NextPiece(s).0] + Pieces(NextPiece(s).1)
  }

  function TagEnding(s: string): Ending
    decreases |s|
  {
    if AtEnding(s) then EndingOf(s) else TagEnding(NextPiece(s).1)
  }

  function AfterTag(s: string): (rest: string)
    ensures |rest| <= |s|
    decreases |s|
  {
    if AtEnding(s) then AfterEnding(s) else AfterTag(NextPiece(s).1)
  }

  // --- documents ---

  const RAW_TEXT := {"script", "style", "textarea", "title", "xmp", "plaintext", "noscript", "noembed", "noframes",
                     "iframe"}

  /** The position of the first occurrence of a word, in whatever case, or the end. */
  function Find(s: string, word: string): (n: nat)
    ensures n <= |s|
  {
    if s == "" || Begins(s, word) then 0 else 1 + Find(s[1..], word)
  }

  /** The length of a text up to and with the first occurrence of a word from a position on, or all of it. */
  function Through(s: string, from: nat, word: string): (n: nat)
    ensures n <= |s|
    ensures from <= |s| ==> from <= n
  {
    if from > |s| then |s|
    else
      var k := from + Find(s[from..], word);
      if k + |word| <= |s| then k + |word| else |s|
  }

  predicate OpensTag(s: string) { |s| > 1 && s[0] == '<' && Letter(s[1]) }
  predicate OpensMarkup(s: string) { |s| > 1 && s[0] == '<' && s[1] == '!' }

  function TagName(s: string): string
    requires OpensTag(s)
  {
    s[1..1 + Span(TagNameChar, s[1..])]
  }

  function AfterName(s: string): (rest: string)
    requires OpensTag(s)
    ensures |rest| < |s|
  {
    s[1 + Span(TagNameChar, s[1..])..]
  }

  predicate OpensRawText(name: string, ending: Ending) { ending != SelfClosed && LowerAll(name) in RAW_TEXT }

  /** What the scan of a nonempty text begins with, and the text left for the rest of the scan. */
  function Step(s: string): (r: (seq<Token>, string))
    requires s != ""
    ensures |r.1| < |s|
  {
    if s[0] != '<' then
      var n := Span(Not('<'), s);
      ([Run(s[..n])], s[n..])
    else if Begins(s, "<!--") then
      var n := Through(s, 4, "-->");
      ([Comment(s[..n])], s[n..])
    else if OpensMarkup(s) then
      var n := Through(s, 1, ">");
      ([Declaration(s[..n])], s[n..])
    else if OpensTag(s) then
      var name, t := TagName(s), AfterName(s);
      var tag, rest := Tag(name, Pieces(t), TagEnding(t)), AfterTag(t);
      if OpensRawText(name, tag.ending) then
        var n := Find(rest, "</" + LowerAll(name));
        ([tag, RawText(LowerAll(name), rest[..n])], rest[n..])
      else ([tag], rest)
    else ([LessThan], s[1..])
  }

  function Scan(s: string): seq<Token>
    decreases |s|
  {
    if s == "" then [] else Step(s).0 + Scan(Step(s).1)
  }

  // --- the scan loses nothing ---

  lemma Cut2(s: string, n: nat)
    requires n <= |s|
    ensures s == s[..n] + s[n..]
  {
  }

  lemma First(s: string)
    requires s != ""
    ensures s == [s[0]] + s[1..]
  {
  }

  lemma QuotedLossless(t: string, k: nat)
    requires k + 1 <= |t| && (k + 1 < |t| ==> t[k + 1] == t[0])
    ensures t == [t[0]] + (t[1..1 + k] + if k + 1 < |t| then [t[0]] + t[k + 2..] else "")
  {
  }

  lemma NamedLossless(s: string, n: nat, k: nat)
    requires n <= k <= |s|
    ensures s == s[..n] + (s[n..k] + s[k..])
  {
  }

  lemma EqualsLossless(s: string, k: nat)
    requires k < |s| && s[k] == '='
    ensures s[k..] == "=" + s[k + 1..]
  {
  }

  lemma ValueLossless(s: string)
    ensures s == ValueText(NextValue(s).0, NextValue(s).1)
  {
    var n := Span(SpaceChar, s);
    Cut2(s, n);
    var t := s[n..];
    if t != "" && QuoteMark(t[0]) {
      QuotedLossless(t, Span(Not(t[0]), t[1..]));
    } else {
      Cut2(t, Span(UnquotedChar, t));
    }
  }

  lemma ValuedLossless(s: string, n: nat, k: nat, name: string, space: string, t: string, after: string, v: Value,
      rest: string)
    requires n <= k < |s| && s[k] == '=' && name == s[..n] && space == s[n..k] && t == s[k..] && after == s[k + 1..]
             && (v, rest) == NextValue(after)
    ensures s == PieceText(Attribute(name, space, Some(v)), rest)
  {
    NamedLossless(s, n, k);
    ValueLossless(after);
    EqualsLossless(s, k);
  }

  lemma AttributeLossless(s: string, n: nat, k: nat)
    requires n <= k <= |s|
    ensures s == PieceText(AttributeAt(s, n, k).0, AttributeAt(s, n, k).1)
  {
    NamedLossless(s, n, k);
    if k < |s| && s[k] == '=' {
      var after := s[k + 1..];
      var (v, rest) := NextValue(after);
      ValuedLossless(s, n, k, s[..n], s[n..k], s[k..], after, v, rest);
    }
  }

  lemma PieceLossless(s: string)
    requires !AtEnding(s)
    ensures s == PieceText(NextPiece(s).0, NextPiece(s).1)
  {
    if Space(s[0]) {
      Cut2(s, Span(SpaceChar, s));
    } else if s[0] == '/' {
      First(s);
    } else {
      AttributeLossless(s, NameEnd(s), SpaceEnd(s, NameEnd(s)));
    }
  }

  lemma {:induction false} TagLossless(s: string)
    ensures s == PiecesText(Pieces(s), EndingText(TagEnding(s), AfterTag(s)))
    ensures TagEnding(s) == Cut ==> AfterTag(s) == ""
    decreases |s|
  {
    if AtEnding(s) {
      if s != "" { First(s); }
      if s != "" && s[0] == '/' { Cut2(s, 2); }
    } else {
      PieceLossless(s);
      TagLossless(NextPiece(s).1);
      PiecesFirst(NextPiece(s).0, Pieces(NextPiece(s).1), EndingText(TagEnding(s), AfterTag(s)));
    }
  }

  lemma PiecesFirst(p: Piece, ps: seq<Piece>, rest: string)
    ensures PiecesText([p] + ps, rest) == PieceText(p, PiecesText(ps, rest))
  {
    assert ([p] + ps)[1..] == ps;
  }

  lemma TextFirst(t: Token, ts: seq<Token>)
    ensures Text([t] + ts) == TokenText(t, Text(ts))
  {
    assert ([t] + ts)[1..] == ts;
  }

  lemma TextTwo(a: Token, b: Token, ts: seq<Token>)
    ensures Text([a, b] + ts) == TokenText(a, TokenText(b, Text(ts)))
  {
    assert [a, b] + ts == [a] + ([b] + ts);
    TextFirst(a, [b] + ts);
    TextFirst(b, ts);
  }

  lemma TagStep(s: string)
    requires OpensTag(s)
    ensures s == TokenText(Tag(TagName(s), Pieces(AfterName(s)), TagEnding(AfterName(s))), AfterTag(AfterName(s)))
  {
    var name, after := TagName(s), AfterName(s);
    TagLossless(after);
    NameCut(s, name, after);
    TagText(name, Pieces(after), TagEnding(after), AfterTag(after), after);
  }

  lemma TagText(name: string, ps: seq<Piece>, e: Ending, rest: string, inner: string)
    requires inner == PiecesText(ps, EndingText(e, rest))
    ensures TokenText(Tag(name, ps, e), rest) == "<" + (name + inner)
  {
  }

  lemma NameCut(s: string, name: string, after: string)
    requires OpensTag(s) && name == TagName(s) && after == AfterName(s)
    ensures s == "<" + (name + after)
  {
    First(s);
    Cut2(s[1..], |name|);
    assert s[1..][..|name|] == name && s[1..][|name|..] == after;
  }

  lemma StepLossless(s: string, ts: seq<Token>)
    requires s != "" && Text(ts) == Step(s).1
    ensures Text(Step(s).0 + ts) == s
  {
    if s[0] != '<' {
      Cut2(s, Span(Not('<'), s));
      TextFirst(Step(s).0[0], ts);
    } else if Begins(s, "<!--") {
      Cut2(s, Through(s, 4, "-->"));
      TextFirst(Step(s).0[0], ts);
    } else if OpensMarkup(s) {
      Cut2(s, Through(s, 1, ">"));
      TextFirst(Step(s).0[0], ts);
    } else if OpensTag(s) {
      TagStepLossless(s, ts);
    } else {
      First(s);
      TextFirst(LessThan, ts);
    }
  }

  lemma TagStepLossless(s: string, ts: seq<Token>)
    requires OpensTag(s) && !Begins(s, "<!--") && Text(ts) == Step(s).1
    ensures Text(Step(s).0 + ts) == s
  {
    TagStep(s);
    var t := AfterName(s);
    var name, rest := LowerAll(TagName(s)), AfterTag(t);
    var tag := Tag(TagName(s), Pieces(t), TagEnding(t));
    if OpensRawText(TagName(s), TagEnding(t)) {
      var n := Find(rest, "</" + name);
      Cut2(rest, n);
      RawTagText(tag, name, rest, rest[..n], rest[n..], ts);
      assert Step(s).0 == [tag, RawText(name, rest[..n])];
    } else {
      TextFirst(tag, ts);
      assert Step(s).0 == [tag];
    }
  }

  lemma RawTagText(tag: Token, name: string, rest: string, body: string, tail: string, ts: seq<Token>)
    requires rest == body + tail && Text(ts) == tail
    ensures Text([tag, RawText(name, body)] + ts) == TokenText(tag, rest)
  {
    TextTwo(tag, RawText(name, body), ts);
  }

  /** The text of the scanned tokens is the document. */
  lemma {:induction false} ScanIsLossless(s: string)
    ensures Text(Scan(s)) == s
    decreases |s|
  {
    if s != "" {
      ScanIsLossless(Step(s).1);
      StepLossless(s, Scan(Step(s).1));
    }
  }
}
