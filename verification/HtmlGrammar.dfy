/**
 The documents the scanner reads, as a grammar: which sequences of tokens there are, told by their characters,
 apart from how the scanner finds them. A document has exactly one such reading, and the scanner finds it.
 */
module HtmlGrammar {
  import opened Wrappers
  import opened Chars
  import opened Html
  import opened HtmlRescan
  import Css

  // --- characters ---

  predicate InTagName(c: char) { !Space(c) && c != '/' && c != '>' }
  predicate InName(c: char) { !Space(c) && c != '/' && c != '>' && c != '=' }
  predicate InUnquoted(c: char) { !Space(c) && c != '>' }

  /** The text is at its end or goes on with such a character. */
  predicate GoesOn(rest: string, ok: char -> bool) { rest == "" || ok(rest[0]) }

  // --- start tags ---

  /** A value as it stands: unquoted up to whitespace or `>`, quoted up to its mark or the end of the document. */
  predicate ValueStands(v: Value, rest: string) {
    && All(Space, v.space)
    && match v.quoting
       case Unquoted =>
         && All(InUnquoted, v.text) && (v.text != "" ==> !QuoteMark(v.text[0]))
         && (rest == "" || rest[0] == '>' || (v.text != "" && Space(rest[0])))
       case Quoted(mark, closed) => QuoteMark(mark) && mark !in v.text && (closed || rest == "")
  }

  /** A piece of a start tag as it stands before the rest of the tag and of the document. */
  predicate PieceStands(p: Piece, rest: string) {
    match p
    case Gap(text) => text != "" && All(Space, text) && (rest == "" || !Space(rest[0]))
    case Slash => rest == "" || rest[0] != '>'
    case Attribute(name, space, None) =>
      && name != "" && All(InName, name) && All(Space, space)
      && (rest == "" || rest[0] == '/' || rest[0] == '>' || (space != "" && InName(rest[0])))
    case Attribute(name, space, Some(v)) =>
      All(InName, name) && All(Space, space) && (name == "" ==> space == "") && ValueStands(v, rest)
  }

  predicate PiecesStand(ps: seq<Piece>, tail: string) {
    ps == [] || (PieceStands(ps[0], PiecesText(ps[1..], tail)) && PiecesStand(ps[1..], tail))
  }

  predicate TagStands(name: string, ps: seq<Piece>, e: Ending, rest: string) {
    && name != "" && Letter(name[0]) && All(InTagName, name)
    && (var inner := PiecesText(ps, EndingText(e, rest)); inner == "" || !InTagName(inner[0]))
    && PiecesStand(ps, EndingText(e, rest)) && (e == Cut ==> rest == "")
  }

  // --- the other tokens ---

  predicate ClosesComment(text: string, k: nat) {
    k + 3 <= |text| && text[k] == '-' && text[k + 1] == '-' && text[k + 2] == '>'
  }

  /** A comment ends with the first `-->` after its opening, or with the document. */
  predicate CommentStands(text: string, rest: string) {
    && |text| >= 4 && text[0] == '<' && text[1] == '!' && text[2] == '-' && text[3] == '-'
    && ((|text| >= 7 && ClosesComment(text, |text| - 3) && forall k :: 4 <= k < |text| - 3 ==> !ClosesComment(text, k))
        || (rest == "" && forall k :: 4 <= k <= |text| ==> !ClosesComment(text, k)))
  }

  /** A declaration ends with its first `>`, or with the document. */
  predicate DeclarationStands(text: string, rest: string) {
    && |text| >= 2 && text[0] == '<' && text[1] == '!' && !(|text| >= 4 && text[2] == '-' && text[3] == '-')
    && ((|text| >= 3 && text[|text| - 1] == '>' && '>' !in text[..|text| - 1]) || (rest == "" && '>' !in text))
  }

  /** The ten elements whose content is text. */
  const RAW := {"script", "style", "textarea", "title", "xmp", "plaintext", "noscript", "noembed", "noframes", "iframe"}

  /** `</` and the name, in whatever case. */
  predicate EndsElement(s: string, k: nat, name: string) {
    k + 2 + |name| <= |s| && s[k] == '<' && s[k + 1] == '/' && Spells(s[k + 2..k + 2 + |name|], name)
  }

  /** The body of a raw-text element goes up to its first end tag, or the end of the document. */
  predicate BodyStands(name: string, body: string, rest: string) {
    && (forall k :: 0 <= k < |body| ==> !EndsElement(body + rest, k, name))
    && (rest == "" || EndsElement(rest, 0, name))
  }

  predicate Opens(t: Token) { t.Tag? && t.ending != SelfClosed && SpellsOne(t.name, RAW) }

  predicate TokenStands(t: Token, rest: string) {
    match t
    case Run(text) => text != "" && '<' !in text && (rest == "" || rest[0] == '<')
    case LessThan => rest == "" || !(Letter(rest[0]) || rest[0] == '!')
    case Comment(text) => CommentStands(text, rest)
    case Declaration(text) => DeclarationStands(text, rest)
    case Tag(name, pieces, ending) => TagStands(name, pieces, ending, rest)
    case RawText(_, _) => false
  }

  /** A document's tokens; an opened raw-text element is followed by its body, and only then does one occur. */
  predicate Reading(ts: seq<Token>) {
    ts == []
    || (TokenStands(ts[0], Text(ts[1..]))
        && if Opens(ts[0]) then
             && |ts| > 1 && ts[1].RawText? && ts[1].name in RAW && Spells(ts[0].name, ts[1].name)
             && BodyStands(ts[1].name, ts[1].text, Text(ts[2..])) && Reading(ts[2..])
           else Reading(ts[1..]))
  }

  // --- the scanner finds what stands there ---

  lemma ValueIsScanned(v: Value, rest: string)
    ensures ValueStands(v, rest) <==> HtmlRescan.Scanned(v, rest)
  {
    if v.quoting.Quoted? { assert All(Not(v.quoting.mark), v.text) <==> v.quoting.mark !in v.text; }
  }

  lemma PieceIsRead(p: Piece, rest: string)
    requires PieceStands(p, rest)
    ensures var s := PieceText(p, rest); !AtEnding(s) && NextPiece(s) == (p, rest)
  {
    match p
    case Gap(text) =>
      SpanOf(SpaceChar, text, rest);
      assert (text + rest)[0] == text[0];
    case Slash => assert ("/" + rest)[1..] == rest;
    case Attribute(name, space, None) =>
      BareAttribute(name + (space + rest), |name|, |name| + |space|, name, space, rest);
    case Attribute(name, space, Some(v)) =>
      ValueIsScanned(v, rest);
      ValuedAttribute(name + (space + ("=" + ValueText(v, rest))), |name|, |name| + |space|, name, space, v, rest);
  }

  lemma EndingIsRead(e: Ending, rest: string)
    requires e == Cut ==> rest == ""
    ensures var s := EndingText(e, rest); AtEnding(s) && EndingOf(s) == e && AfterEnding(s) == rest
  {
    match e
    case Closed => assert (">" + rest)[1..] == rest;
    case SelfClosed => assert ("/>" + rest)[2..] == rest;
    case Cut =>
  }

  /** The scan of a tag reads these pieces up to the ending at the start of `z`. */
  predicate ReadsAs(s: string, ps: seq<Piece>, z: string)
    requires AtEnding(z)
  {
    Pieces(s) == ps && TagEnding(s) == EndingOf(z) && AfterTag(s) == AfterEnding(z)
  }

  lemma FirstIsRead(s: string, p: Piece, t: string, rest: seq<Piece>, z: string)
    requires AtEnding(z) && !AtEnding(s) && NextPiece(s) == (p, t) && ReadsAs(t, rest, z)
    ensures ReadsAs(s, [p] + rest, z)
  {
  }

  lemma PieceThenRest(p: Piece, t: string, rest: seq<Piece>, z: string)
    requires AtEnding(z) && PieceStands(p, t) && ReadsAs(t, rest, z)
    ensures ReadsAs(PieceText(p, t), [p] + rest, z)
  {
    PieceIsRead(p, t);
    FirstIsRead(PieceText(p, t), p, t, rest, z);
  }

  lemma {:induction false} PiecesAreRead(ps: seq<Piece>, z: string)
    requires PiecesStand(ps, z) && AtEnding(z)
    ensures ReadsAs(PiecesText(ps, z), ps, z)
  {
    if ps != [] {
      var p, rest := ps[0], ps[1..];
      PiecesAreRead(rest, z);
      PieceThenRest(p, PiecesText(rest, z), rest, z);
      assert ps == [p] + rest;
    }
  }

  lemma NameIsRead(name: string, inner: string)
    requires name != "" && Letter(name[0]) && All(InTagName, name) && (inner == "" || !InTagName(inner[0]))
    ensures var s := "<" + (name + inner); OnlyTag(s) && TagName(s) == name && AfterName(s) == inner
  {
    var s := "<" + (name + inner);
    SpanOf(TagNameChar, name, inner);
    assert s[1..] == name + inner && s[1] == name[0];
    assert s[1..1 + |name|] == name && s[1 + |name|..] == inner;
    CommentOpensMarkup(s);
  }

  lemma InnerIsRead(name: string, ps: seq<Piece>, z: string, inner: string)
    requires name != "" && Letter(name[0]) && All(InTagName, name) && (inner == "" || !InTagName(inner[0]))
    requires inner == PiecesText(ps, z) && PiecesStand(ps, z) && AtEnding(z)
    ensures var s := "<" + (name + inner);
            && OnlyTag(s) && TagName(s) == name && Pieces(AfterName(s)) == ps
            && TagEnding(AfterName(s)) == EndingOf(z) && AfterTag(AfterName(s)) == AfterEnding(z)
  {
    NameIsRead(name, inner);
    PiecesAreRead(ps, z);
  }

  lemma TagIsRead(name: string, ps: seq<Piece>, e: Ending, rest: string)
    requires TagStands(name, ps, e, rest)
    ensures var s := TokenText(Tag(name, ps, e), rest);
            && OnlyTag(s) && TagName(s) == name && Pieces(AfterName(s)) == ps && TagEnding(AfterName(s)) == e
            && AfterTag(AfterName(s)) == rest
  {
    var z := EndingText(e, rest);
    var inner := PiecesText(ps, z);
    TagText(name, ps, e, rest, inner);
    EndingIsRead(e, rest);
    InnerIsRead(name, ps, z, inner);
  }

  // --- the other tokens are found ---

  /** Text that begins with `</` and goes on with a name. */
  lemma SpellsEnd(t: string, name: string)
    requires |t| == |name| + 2
    ensures Spells(t, "</" + name) <==> t[0] == '<' && t[1] == '/' && Spells(t[2..], name)
  {
    var word := "</" + name;
    assert word[2..] == name && forall i :: 0 <= i < |name| ==> word[i + 2] == name[i] && t[2..][i] == t[i + 2];
    if t[0] == '<' && t[1] == '/' && Spells(t[2..], name) {
      forall k | 0 <= k < |t|
        ensures t[k] == word[k] || ('A' <= t[k] <= 'Z' && t[k] as int + ('a' as int - 'A' as int) == word[k] as int)
      {
        if k >= 2 { assert t[2..][k - 2] == t[k] && name[k - 2] == word[k]; }
      }
    }
    if Spells(t, word) {
      forall i | 0 <= i < |name|
        ensures t[2..][i] == name[i]
                || ('A' <= t[2..][i] <= 'Z' && t[2..][i] as int + ('a' as int - 'A' as int) == name[i] as int)
      {
        assert t[i + 2] == t[2..][i] && word[i + 2] == name[i];
      }
    }
  }

  lemma EndWord(s: string, k: nat, name: string)
    requires name in RAW
    ensures EndsElement(s, k, name) <==> Css.At(s, k, "</" + name)
  {
    var n := |name| + 2;
    if k + n <= |s| {
      var t := s[k..k + n];
      assert s[k..][..n] == t && t[2..] == s[k + 2..k + n] && t[0] == s[k] && t[1] == s[k + 1];
      LowerSpells(t, "</" + name);
      SpellsEnd(t, name);
    }
  }

  lemma CloseWord(s: string, k: nat)
    ensures ClosesComment(s, k) <==> Css.At(s, k, "-->")
  {
    if k + 3 <= |s| {
      var t := s[k..][..3];
      assert t[0] == s[k] && t[1] == s[k + 1] && t[2] == s[k + 2];
      assert LowerAll(t)[0] == Lower(t[0]) && LowerAll(t)[1] == Lower(t[1]) && LowerAll(t)[2] == Lower(t[2]);
    }
  }

  lemma MarkWord(s: string, k: nat)
    ensures Css.At(s, k, ">") <==> k < |s| && s[k] == '>'
  {
    if k < |s| {
      var t := s[k..][..1];
      assert t[0] == s[k] && LowerAll(t)[0] == Lower(t[0]);
    }
  }

  lemma AtLater(s: string, from: nat, k: nat, word: string)
    requires from + k <= |s|
    ensures Css.At(s[from..], k, word) <==> Css.At(s, from + k, word)
  {
    assert s[from..][k..] == s[from + k..];
  }

  lemma CommentIsRead(text: string, rest: string)
    requires CommentStands(text, rest)
    ensures var s := text + rest; Begins(s, "<!--") && Through(s, 4, "-->") == |text|
  {
    var s := text + rest;
    assert s[..4] == "<!--" && LowerAll("<!--") == "<!--";
    var closed := |text| >= 7 && ClosesComment(text, |text| - 3)
                  && forall k :: 4 <= k < |text| - 3 ==> !ClosesComment(text, k);
    var n := if closed then |text| - 7 else |s| - 4;
    forall k | 0 <= k < n ensures !Css.At(s[4..], k, "-->") {
      AtLater(s, 4, k, "-->");
      CloseWord(s, 4 + k);
      assert !ClosesComment(text, 4 + k);
    }
    if closed {
      AtLater(s, 4, n, "-->");
      CloseWord(s, 4 + n);
    }
    FindIs(s[4..], "-->", n);
  }

  lemma DeclarationIsRead(text: string, rest: string)
    requires DeclarationStands(text, rest)
    ensures var s := text + rest; OpensMarkup(s) && !Begins(s, "<!--") && Through(s, 1, ">") == |text|
  {
    var s := text + rest;
    assert |s| >= 4 ==> LowerAll(s[..4])[2] == Lower(s[2]) && LowerAll(s[..4])[3] == Lower(s[3]);
    var closed := |text| >= 3 && text[|text| - 1] == '>' && '>' !in text[..|text| - 1];
    var n := if closed then |text| - 2 else |s| - 1;
    forall k | 0 <= k < n ensures !Css.At(s[1..], k, ">") {
      AtLater(s, 1, k, ">");
      MarkWord(s, 1 + k);
      if closed { assert s[1 + k] == text[..|text| - 1][1 + k]; } else { assert s[1 + k] == text[1 + k]; }
    }
    if closed {
      AtLater(s, 1, n, ">");
      MarkWord(s, 1 + n);
    }
    FindIs(s[1..], ">", n);
    NotComment(text, rest);
  }

  lemma NotComment(text: string, rest: string)
    requires DeclarationStands(text, rest)
    ensures !Begins(text + rest, "<!--")
  {
    var s := text + rest;
    if |s| >= 4 {
      assert LowerAll(s[..4])[2] == Lower(s[2]) && LowerAll(s[..4])[3] == Lower(s[3]);
      if |text| == 3 { assert s[2] == text[2]; }
    }
  }

  lemma BodyIsRead(name: string, body: string, rest: string)
    requires name in RAW && BodyStands(name, body, rest)
    ensures Find(body + rest, "</" + name) == |body|
  {
    var s, word := body + rest, "</" + name;
    forall k | 0 <= k < |body| ensures !Css.At(s, k, word) { EndWord(s, k, name); }
    if rest != "" {
      EndWord(rest, 0, name);
      assert s[|body|..] == rest && rest[0..] == rest;
    }
    FindIs(s, word, |body|);
  }

  lemma OpensIsRaw(name: string, ps: seq<Piece>, e: Ending)
    ensures Opens(Tag(name, ps, e)) <==> OpensRawText(name, e)
  {
    LowerSpellsOne(name, RAW);
  }

  lemma RawIsLower(name: string, lower: string)
    requires lower in RAW && Spells(name, lower)
    ensures LowerAll(name) == lower
  {
    LowerSpells(name, lower);
  }

  /** One step of the scan over what begins with a token reads it. */
  lemma TokenIsRead(t: Token, rest: string)
    requires TokenStands(t, rest) && !Opens(t)
    ensures var s := TokenText(t, rest); s != "" && Step(s) == ([t], rest)
  {
    var s := TokenText(t, rest);
    match t
    case Run(text) =>
      assert All(Not('<'), text) && s[0] == text[0] && text[0] in text;
      SpanOf(Not('<'), text, rest);
    case LessThan => LessThanIsRead(rest);
    case Comment(text) =>
      CommentIsRead(text, rest);
      assert s[0] == '<' && s[..|text|] == text && s[|text|..] == rest;
    case Declaration(text) =>
      DeclarationIsRead(text, rest);
      assert s[0] == '<' && s[..|text|] == text && s[|text|..] == rest;
    case Tag(name, ps, e) =>
      OpensIsRaw(name, ps, e);
      TagIsRead(name, ps, e, rest);
      StepOfTag(s, name, ps, e, rest);
  }

  lemma LessThanIsRead(rest: string)
    requires rest == "" || !(Letter(rest[0]) || rest[0] == '!')
    ensures Step("<" + rest) == ([LessThan], rest)
  {
    var s := "<" + rest;
    assert s[1..] == rest;
    if |s| > 1 { assert s[1] == rest[0]; }
    CommentOpensMarkup(s);
  }

  /** And of a raw-text element, its body with it. */
  lemma ElementIsRead(s: string, name: string, ps: seq<Piece>, e: Ending, lower: string, body: string, rest: string,
      y: string)
    requires s == TokenText(Tag(name, ps, e), y) && y == body + rest && TagStands(name, ps, e, y)
    requires Opens(Tag(name, ps, e)) && lower in RAW && Spells(name, lower)
    requires BodyStands(lower, body, rest)
    ensures s != "" && Step(s) == ([Tag(name, ps, e), RawText(lower, body)], rest)
  {
    OpensIsRaw(name, ps, e);
    RawIsLower(name, lower);
    TagIsRead(name, ps, e, y);
    RawElementIsRead(s, name, ps, e, lower, body, rest, y);
  }

  lemma RawElementIsRead(s: string, name: string, ps: seq<Piece>, e: Ending, lower: string, body: string, rest: string,
      y: string)
    requires OnlyTag(s) && TagName(s) == name && Pieces(AfterName(s)) == ps && TagEnding(AfterName(s)) == e
             && AfterTag(AfterName(s)) == y
    requires OpensRawText(name, e) && LowerAll(name) == lower && lower in RAW && y == body + rest
    requires BodyStands(lower, body, rest)
    ensures s != "" && Step(s) == ([Tag(name, ps, e), RawText(lower, body)], rest)
  {
    BodyIsRead(lower, body, rest);
    ElementStep(s, name, ps, e, lower, body, rest, y);
  }

  lemma ElementStep(s: string, name: string, ps: seq<Piece>, e: Ending, lower: string, body: string, rest: string,
      y: string)
    requires OnlyTag(s) && TagName(s) == name && Pieces(AfterName(s)) == ps && TagEnding(AfterName(s)) == e
             && AfterTag(AfterName(s)) == y
    requires OpensRawText(name, e) && LowerAll(name) == lower && y == body + rest && Find(y, "</" + lower) == |body|
    ensures s != "" && Step(s) == ([Tag(name, ps, e), RawText(lower, body)], rest)
  {
    StepOfTag(s, name, ps, e, y);
    assert y[..|body|] == body && y[|body|..] == rest;
  }

  lemma ScanGoesOn(s: string, head: seq<Token>, r: string)
    requires s != "" && Step(s) == (head, r)
    ensures Scan(s) == head + Scan(r)
  {
  }

  /** The scanner finds the reading of a document. */
  lemma {:induction false} ReadingIsFound(ts: seq<Token>)
    requires Reading(ts)
    ensures Scan(Text(ts)) == ts
    decreases |ts|
  {
    if ts != [] {
      var t, s := ts[0], Text(ts);
      if Opens(t) {
        var body, rest := ts[1], ts[2..];
        assert ts == [t, body] + rest && ts[1..] == [body] + rest;
        TextTwo(t, body, rest);
        TextFirst(body, rest);
        ReadingIsFound(rest);
        OpenedIsRead(s, t, body, Text(rest), body.text + Text(rest));
        ScanGoesOn(s, [t, body], Text(rest));
      } else {
        var rest := ts[1..];
        assert ts == [t] + rest;
        ReadingIsFound(rest);
        TokenIsRead(t, Text(rest));
        ScanGoesOn(s, [t], Text(rest));
      }
    }
  }

  lemma OpenedIsRead(s: string, t: Token, body: Token, rest: string, y: string)
    requires s == TokenText(t, y) && body.RawText? && y == body.text + rest && TokenStands(t, y) && Opens(t)
    requires body.name in RAW && Spells(t.name, body.name) && BodyStands(body.name, body.text, rest)
    ensures s != "" && Step(s) == ([t, body], rest)
  {
    ElementIsRead(s, t.name, t.pieces, t.ending, body.name, body.text, rest, y);
  }

  // --- what the scanner finds stands there ---

  lemma SpanStands(p: char -> bool, s: string, n: nat)
    requires n == Span(p, s)
    ensures All(p, s[..n]) && (s[n..] == "" || !p(s[n..][0])) && (n == 0 <==> s == "" || !p(s[0]))
  {
    forall k | 0 <= k < n ensures p(s[..n][k]) { assert s[..n][k] == s[k]; }
  }

  lemma AttributeStands(s: string, n: nat, k: nat)
    requires BeginsAttribute(s) && n == NameEnd(s) && k == SpaceEnd(s, n)
    ensures PieceStands(AttributeAt(s, n, k).0, AttributeAt(s, n, k).1)
  {
    var (p, r) := AttributeAt(s, n, k);
    AttributeParts(s, n, k, s[..n], s[n..k], p, r);
    if p.value.Some? {
      ValueParts(s, n, k, p, r);
      ValueIsScanned(p.value.value, r);
    } else {
      BareParts(s, n, k, s[..n], s[n..k], p, r);
    }
  }

  lemma NextStands(s: string)
    requires !AtEnding(s)
    ensures PieceStands(NextPiece(s).0, NextPiece(s).1)
  {
    if Space(s[0]) {
      SpanStands(SpaceChar, s, Span(SpaceChar, s));
    } else if s[0] != '/' {
      AttributeStands(s, NameEnd(s), SpaceEnd(s, NameEnd(s)));
    }
  }

  lemma {:induction false} PiecesDoStand(s: string)
    ensures PiecesStand(Pieces(s), EndingText(TagEnding(s), AfterTag(s)))
    decreases |s|
  {
    if !AtEnding(s) {
      NextStands(s);
      var r := NextPiece(s).1;
      PiecesDoStand(r);
      TagLossless(r);
      assert Pieces(s)[1..] == Pieces(r);
    }
  }

  lemma TagDoesStand(s: string)
    requires OpensTag(s)
    ensures var t := AfterName(s); TagStands(TagName(s), Pieces(t), TagEnding(t), AfterTag(t))
  {
    var t := AfterName(s);
    SpanStands(TagNameChar, s[1..], Span(TagNameChar, s[1..]));
    assert s[1..][0] == s[1] && TagName(s) == s[1..][..Span(TagNameChar, s[1..])];
    assert t == s[1..][Span(TagNameChar, s[1..])..];
    TagLossless(t);
    PiecesDoStand(t);
  }

  lemma CommentDoesStand(s: string)
    requires Begins(s, "<!--")
    ensures var n := Through(s, 4, "-->"); CommentStands(s[..n], s[n..])
  {
    var n, k := Through(s, 4, "-->"), Find(s[4..], "-->");
    var text := s[..n];
    CommentOpens(s);
    FindFinds(s[4..], "-->");
    forall j | 4 <= j < 4 + k ensures !ClosesComment(s, j) {
      AtLater(s, 4, j - 4, "-->");
      CloseWord(s, j);
    }
    if k < |s[4..]| {
      AtLater(s, 4, k, "-->");
      CloseWord(s, 4 + k);
      forall j | 4 <= j < n - 3 ensures !ClosesComment(text, j) { assert !ClosesComment(s, j); }
    } else {
      forall j | 4 <= j <= n ensures !ClosesComment(text, j) { assert j < 4 + k ==> !ClosesComment(s, j); }
    }
  }

  lemma CommentOpens(s: string)
    ensures Begins(s, "<!--") <==> |s| >= 4 && s[0] == '<' && s[1] == '!' && s[2] == '-' && s[3] == '-'
  {
    if |s| >= 4 {
      var t := LowerAll(s[..4]);
      assert t[0] == Lower(s[0]) && t[1] == Lower(s[1]) && t[2] == Lower(s[2]) && t[3] == Lower(s[3]);
    }
  }

  lemma DeclarationDoesStand(s: string)
    requires OpensMarkup(s) && !Begins(s, "<!--")
    ensures var n := Through(s, 1, ">"); DeclarationStands(s[..n], s[n..])
  {
    var n, k := Through(s, 1, ">"), Find(s[1..], ">");
    var text := s[..n];
    CommentOpens(s);
    FindFinds(s[1..], ">");
    forall j | 1 <= j < 1 + k ensures s[j] != '>' {
      AtLater(s, 1, j - 1, ">");
      MarkWord(s, j);
    }
    if k < |s[1..]| {
      AtLater(s, 1, k, ">");
      MarkWord(s, 1 + k);
    }
  }

  lemma BodyDoesStand(name: string, rest: string)
    requires name in RAW
    ensures var n := Find(rest, "</" + name); BodyStands(name, rest[..n], rest[n..])
  {
    var word := "</" + name;
    var n := Find(rest, word);
    FindFinds(rest, word);
    assert rest[..n] + rest[n..] == rest;
    forall k | 0 <= k < n ensures !EndsElement(rest, k, name) { EndWord(rest, k, name); }
    if n < |rest| {
      EndWord(rest[n..], 0, name);
      assert rest[n..][0..] == rest[n..];
    }
  }

  /** One step of the scan stands before what is left for the rest of it. */
  lemma StepStands(s: string, ts: seq<Token>)
    requires s != "" && Reading(ts) && Text(ts) == Step(s).1
    ensures Reading(Step(s).0 + ts)
  {
    if s[0] != '<' {
      var n := Span(Not('<'), s);
      SpanStands(Not('<'), s, n);
      Prepend(Run(s[..n]), ts);
    } else if Begins(s, "<!--") {
      CommentDoesStand(s);
      Prepend(Comment(s[..Through(s, 4, "-->")]), ts);
    } else if OpensMarkup(s) {
      DeclarationDoesStand(s);
      Prepend(Declaration(s[..Through(s, 1, ">")]), ts);
    } else if OpensTag(s) {
      TagDoesStand(s);
      var t := AfterName(s);
      TagStepStands(s, TagName(s), Pieces(t), TagEnding(t), AfterTag(t), ts);
    } else {
      assert |s| > 1 ==> s[1..][0] == s[1];
      Prepend(LessThan, ts);
    }
  }

  lemma Prepend(t: Token, ts: seq<Token>)
    requires TokenStands(t, Text(ts)) && !Opens(t) && Reading(ts)
    ensures Reading([t] + ts)
  {
    assert ([t] + ts)[1..] == ts;
  }

  lemma TagStepStands(s: string, name: string, ps: seq<Piece>, e: Ending, rest: string, ts: seq<Token>)
    requires OnlyTag(s) && s[0] == '<' && TagName(s) == name && Pieces(AfterName(s)) == ps
             && TagEnding(AfterName(s)) == e && AfterTag(AfterName(s)) == rest
    requires Reading(ts) && Text(ts) == Step(s).1 && TagStands(name, ps, e, rest)
    ensures Reading(Step(s).0 + ts)
  {
    OpensIsRaw(name, ps, e);
    StepOfTag(s, name, ps, e, rest);
    if OpensRawText(name, e) {
      ElementStands(name, ps, e, LowerAll(name), rest, Find(rest, "</" + LowerAll(name)), ts);
    } else {
      Prepend(Tag(name, ps, e), ts);
    }
  }

  lemma ElementStands(name: string, ps: seq<Piece>, e: Ending, lower: string, rest: string, n: nat, ts: seq<Token>)
    requires OpensRawText(name, e) && TagStands(name, ps, e, rest) && Reading(ts)
    requires lower == LowerAll(name) && n == Find(rest, "</" + lower) && Text(ts) == rest[n..]
    ensures Reading([Tag(name, ps, e), RawText(lower, rest[..n])] + ts)
  {
    OpensIsRaw(name, ps, e);
    LowerSpells(name, lower);
    BodyDoesStand(lower, rest);
    assert rest == rest[..n] + rest[n..];
    PrependElement(Tag(name, ps, e), RawText(lower, rest[..n]), ts);
  }

  lemma PrependElement(t: Token, body: Token, ts: seq<Token>)
    requires Opens(t) && body.RawText? && body.name in RAW && Spells(t.name, body.name) && Reading(ts)
    requires BodyStands(body.name, body.text, Text(ts)) && TokenStands(t, body.text + Text(ts))
    ensures Reading([t, body] + ts)
  {
    var all := [t, body] + ts;
    assert all[1..] == [body] + ts && all[2..] == ts;
    TextFirst(body, ts);
  }

  lemma {:induction false} ScanIsReading(s: string)
    ensures Reading(Scan(s))
    decreases |s|
  {
    if s != "" {
      ScanIsReading(Step(s).1);
      ScanIsLossless(Step(s).1);
      StepStands(s, Scan(Step(s).1));
    }
  }

  /** Every document has exactly one reading, and it is what the scanner finds. */
  lemma ScanIsTheReading(s: string, ts: seq<Token>)
    ensures Scan(s) == ts <==> Text(ts) == s && Reading(ts)
  {
    ScanIsLossless(s);
    ScanIsReading(s);
    if Reading(ts) { ReadingIsFound(ts); }
  }
}
