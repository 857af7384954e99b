/**
 Scanning a rewritten document finds the tokens of the original with exactly the intended values changed.

 The proof follows the scanner. A rewritten value is read back whole (it gains no character that could end
 it), so an attribute is read back under its own name and quoting; a tag is then read back attribute by
 attribute; a raw-text body, rewritten or copied, still ends at the same closing tag; and so every step of
 the scan over the output is the step over the input, with its values mapped.

 Each lemma says what is read from the mapped text of one piece followed by any rest that begins in the
 way the rest of the document does.
 */
module HtmlRescan {
  import opened Wrappers
  import opened Chars
  import opened Html
  import opened HtmlRewrite
  import Css

  // --- values and pieces ---

  /** What a value and the text after it are like when they were scanned as such. */
  predicate Scanned(v: Value, rest: string) {
    && All(SpaceChar, v.space) && Fits(v.quoting, v.text)
    && match v.quoting
       case Unquoted =>
         Stops(UnquotedChar, rest)
         && (v.text == "" ==> Stops(SpaceChar, rest) && (rest != "" ==> !QuoteMark(rest[0])))
       case Quoted(_, closed) => closed || rest == ""
  }

  lemma ValueIsScanned(s: string)
    ensures Scanned(NextValue(s).0, NextValue(s).1)
  {
    var n := Span(SpaceChar, s);
    var t, space := s[n..], s[..n];
    forall j | 0 <= j < n ensures SpaceChar(space[j]) { assert space[j] == s[j]; }
    if t != "" && QuoteMark(t[0]) {
      QuotedIsScanned(t, t[1..], Span(Not(t[0]), t[1..]));
    } else {
      assert t != "" ==> t[0] == s[n];
      UnquotedIsScanned(t, Span(UnquotedChar, t));
    }
  }

  lemma QuotedIsScanned(t: string, inner: string, k: nat)
    requires t != "" && QuoteMark(t[0]) && inner == t[1..] && k == Span(Not(t[0]), inner)
    ensures k + 1 <= |t| && All(Not(t[0]), t[1..1 + k])
  {
    var text := t[1..1 + k];
    forall j | 0 <= j < k ensures Not(t[0])(text[j]) { assert text[j] == inner[j]; }
  }

  lemma UnquotedIsScanned(t: string, k: nat)
    requires (t != "" ==> !QuoteMark(t[0]) && !Space(t[0])) && k == Span(UnquotedChar, t)
    ensures All(UnquotedChar, t[..k]) && Stops(UnquotedChar, t[k..]) && (t[..k] != "" ==> !QuoteMark(t[..k][0]))
    ensures t[..k] == "" ==> Stops(SpaceChar, t[k..]) && (t[k..] != "" ==> !QuoteMark(t[k..][0]))
  {
    assert k < |t| ==> t[k..][0] == t[k];
    assert k > 0 ==> t[..k][0] == t[0];
  }

  lemma UnquotedRescan(v: Value, rest: string)
    requires Scanned(v, rest) && v.quoting == Unquoted
    ensures NextValue(ValueText(v, rest)) == (v, rest)
  {
    var t := v.text + rest;
    assert v.text == "" ==> t == rest;
    assert Stops(SpaceChar, t);
    SpanOf(SpaceChar, v.space, t);
    SpanOf(UnquotedChar, v.text, rest);
  }

  lemma QuotedRescan(v: Value, rest: string)
    requires Scanned(v, rest) && v.quoting.Quoted?
    ensures NextValue(ValueText(v, rest)) == (v, rest)
  {
    var mark, closed := v.quoting.mark, v.quoting.closed;
    var close := CloseMark(v.quoting, rest);
    var t := [mark] + (v.text + close);
    SpanOf(SpaceChar, v.space, t);
    SpanOf(Not(mark), v.text, close);
    assert t[1..] == v.text + close;
    assert t[1..1 + |v.text|] == v.text;
    if closed { assert t[|v.text| + 2..] == close[1..] == rest; }
  }

  lemma ValueRescan(v: Value, rest: string)
    requires Scanned(v, rest)
    ensures NextValue(ValueText(v, rest)) == (v, rest)
  {
    if v.quoting == Unquoted { UnquotedRescan(v, rest); } else { QuotedRescan(v, rest); }
  }

  /** Texts that begin alike look the same to every test the scan makes of a first character. */
  lemma AlikeLooks(a: string, b: string)
    requires Alike(a, b)
    ensures a != "" ==>
              && (Space(a[0]) <==> Space(b[0])) && (QuoteMark(a[0]) <==> QuoteMark(b[0]))
                  && (Letter(a[0]) <==> Letter(b[0]))
              && (a[0] == '>' <==> b[0] == '>') && (a[0] == '<' <==> b[0] == '<') && (a[0] == '/' <==> b[0] == '/')
              && (a[0] == '=' <==> b[0] == '=') && (a[0] == '!' <==> b[0] == '!') && (a[0] == '-' <==> b[0] == '-')
  {
  }

  lemma MappedIsScanned(name: string, v: Value, rest: string, prefix: string, y: string)
    requires Scanned(v, rest) && Alike(y, rest) && Plain(prefix)
    ensures Scanned(v.(text := NewValue(name, v.text, prefix)), y)
  {
    AlikeLooks(y, rest);
    NewValueFits(v.quoting, name, v.text, prefix);
  }

  /** A name, whitespace and what follows are found again as such. */
  lemma NameRescan(name: string, space: string, rest: string)
    requires All(NameChar, name) && All(SpaceChar, space) && Stops(SpaceChar, rest) && Stops(NameChar, space + rest)
    ensures var t := name + (space + rest);
            && NameEnd(t) == |name| && t[..|name|] == name && t[|name|..] == space + rest
            && SpaceEnd(t, |name|) == |name| + |space| && t[|name|..|name| + |space|] == space
                && t[|name| + |space|..] == rest
  {
    SpanOf(NameChar, name, space + rest);
    SpanOf(SpaceChar, space, rest);
  }

  lemma NamePartsRescan(t: string, n: nat, k: nat, name: string, space: string, rest: string)
    requires t == name + (space + rest) && n == |name| && k == n + |space|
    requires All(NameChar, name) && All(SpaceChar, space) && Stops(SpaceChar, rest) && Stops(NameChar, space + rest)
    ensures NameEnd(t) == n && SpaceEnd(t, n) == k <= |t| && t[..n] == name && t[n..k] == space && t[k..] == rest
  {
    NameRescan(name, space, rest);
  }

  lemma ValuedAt(t: string, n: nat, k: nat, w: Value, y: string)
    requires n <= k <= |t| && t[k..] == "=" + ValueText(w, y) && Scanned(w, y)
    ensures AttributeAt(t, n, k) == (Attribute(t[..n], t[n..k], Some(w)), y)
  {
    assert t[k] == t[k..][0] && t[k + 1..] == t[k..][1..];
    assert ("=" + ValueText(w, y))[1..] == ValueText(w, y);
    ValueRescan(w, y);
  }

  lemma BareAt(t: string, n: nat, k: nat, y: string)
    requires n <= k <= |t| && t[k..] == y && (y != "" ==> y[0] != '=')
    ensures AttributeAt(t, n, k) == (Attribute(t[..n], t[n..k], None), y)
  {
    assert k < |t| ==> t[k] == t[k..][0];
  }

  lemma NextIsAttribute(t: string, n: nat, k: nat, p: Piece, y: string)
    requires BeginsAttribute(t) && n == NameEnd(t) && k == SpaceEnd(t, n) && AttributeAt(t, n, k) == (p, y)
    ensures NextPiece(t) == (p, y)
  {
  }

  /** A name and whitespace as the scan finds them, before an equals sign or before something else. */
  predicate ScannedName(name: string, space: string, valued: bool) {
    All(NameChar, name) && All(SpaceChar, space) && (name == "" ==> valued && space == "")
  }

  predicate EndsBare(space: string, y: string) {
    Stops(SpaceChar, y) && (y != "" ==> y[0] != '=') && (space == "" ==> Stops(NameChar, y))
  }

  lemma HeadOf(name: string, space: string, rest: string)
    ensures name != "" ==> (name + (space + rest))[0] == name[0]
    ensures space != "" ==> (space + rest)[0] == space[0]
    ensures space == "" ==> space + rest == rest
    ensures name == "" ==> name + (space + rest) == space + rest
  {
  }

  lemma BeginsValued(name: string, space: string, rest: string)
    requires ScannedName(name, space, true) && rest != "" && rest[0] == '='
    ensures BeginsAttribute(name + (space + rest)) && Stops(NameChar, space + rest) && Stops(SpaceChar, rest)
  {
    HeadOf(name, space, rest);
  }

  lemma BeginsBare(name: string, space: string, rest: string)
    requires ScannedName(name, space, false) && EndsBare(space, rest)
    ensures BeginsAttribute(name + (space + rest)) && Stops(NameChar, space + rest)
  {
    HeadOf(name, space, rest);
  }

  lemma ValuedAttribute(t: string, n: nat, k: nat, name: string, space: string, w: Value, y: string)
    requires t == name + (space + ("=" + ValueText(w, y))) && n == |name| && k == n + |space|
    requires ScannedName(name, space, true) && Scanned(w, y)
    ensures BeginsAttribute(t) && NextPiece(t) == (Attribute(name, space, Some(w)), y)
  {
    var rest := "=" + ValueText(w, y);
    BeginsValued(name, space, rest);
    NamePartsRescan(t, n, k, name, space, rest);
    ValuedAt(t, n, k, w, y);
    NextIsAttribute(t, n, k, Attribute(name, space, Some(w)), y);
  }

  lemma BareAttribute(t: string, n: nat, k: nat, name: string, space: string, y: string)
    requires t == name + (space + y) && n == |name| && k == n + |space|
    requires ScannedName(name, space, false) && EndsBare(space, y)
    ensures BeginsAttribute(t) && NextPiece(t) == (Attribute(name, space, None), y)
  {
    BeginsBare(name, space, y);
    NamePartsRescan(t, n, k, name, space, y);
    BareAt(t, n, k, y);
    NextIsAttribute(t, n, k, Attribute(name, space, None), y);
  }

  lemma NameParts(s: string, n: nat, k: nat, name: string, space: string, rest: string)
    requires BeginsAttribute(s) && n == NameEnd(s) && k == SpaceEnd(s, n) && name == s[..n] && space == s[n..k]
             && rest == s[k..]
    ensures All(NameChar, name) && All(SpaceChar, space) && Stops(SpaceChar, rest)
            && (space == "" ==> Stops(NameChar, rest))
    ensures name == "" ==> space == "" && Starts(rest, '=')
    ensures Starts(rest, '=') <==> k < |s| && s[k] == '='
  {
    assert n < |s| ==> s[n..][0] == s[n];
    assert k < |s| ==> s[n..][k - n] == s[k] && rest[0] == s[k];
    assert forall j :: n <= j < k ==> s[n..][j - n] == s[j];
  }

  predicate Starts(s: string, c: char) { s != "" && s[0] == c }

  /** What was scanned as an attribute, taken apart: its name, then its value or what follows without one. */
  lemma AttributeParts(s: string, n: nat, k: nat, name: string, space: string, p: Piece, r: string)
    requires BeginsAttribute(s) && n == NameEnd(s) && k == SpaceEnd(s, n) && (p, r) == AttributeAt(s, n, k)
    requires name == s[..n] && space == s[n..k]
    ensures ScannedName(name, space, p.value.Some?) && p == Attribute(name, space, p.value)
  {
    NameParts(s, n, k, name, space, s[k..]);
  }

  lemma ValueParts(s: string, n: nat, k: nat, p: Piece, r: string)
    requires n <= k <= |s| && (p, r) == AttributeAt(s, n, k) && p.value.Some?
    ensures Scanned(p.value.value, r)
  {
    ValueIsScanned(s[k + 1..]);
  }

  lemma BareParts(s: string, n: nat, k: nat, name: string, space: string, p: Piece, r: string)
    requires BeginsAttribute(s) && n == NameEnd(s) && k == SpaceEnd(s, n) && (p, r) == AttributeAt(s, n, k)
    requires name == s[..n] && space == s[n..k] && p.value.None?
    ensures EndsBare(space, r)
  {
    NameParts(s, n, k, name, space, s[k..]);
  }

  lemma AttributeRescan(s: string, prefix: string, y: string)
    requires BeginsAttribute(s) && Plain(prefix) && Alike(y, NextPiece(s).1)
    ensures var t := PieceText(MapPiece(NextPiece(s).0, prefix), y);
            BeginsAttribute(t) && NextPiece(t) == (MapPiece(NextPiece(s).0, prefix), y) && Alike(t, s)
  {
    var n := NameEnd(s);
    var k := SpaceEnd(s, n);
    var (p, r) := AttributeAt(s, n, k);
    AttributeParts(s, n, k, s[..n], s[n..k], p, r);
    if p.value.Some? { ValueParts(s, n, k, p, r); } else { BareParts(s, n, k, s[..n], s[n..k], p, r); }
    AlikeLooks(y, r);
    AttributeMapped(p, r, s[..n], s[n..k], prefix, y);
    AttributeHead(s, n, k, p, prefix, y);
  }

  lemma AttributeMapped(p: Piece, r: string, name: string, space: string, prefix: string, y: string)
    requires p.Attribute? && p == Attribute(name, space, p.value) && ScannedName(name, space, p.value.Some?)
    requires if p.value.Some? then Scanned(p.value.value, r) else EndsBare(space, y)
    requires Plain(prefix) && Alike(y, r)
    ensures var t := PieceText(MapPiece(p, prefix), y);
            BeginsAttribute(t) && NextPiece(t) == (MapPiece(p, prefix), y)
  {
    var t := PieceText(MapPiece(p, prefix), y);
    if p.value.Some? {
      MappedIsScanned(name, p.value.value, r, prefix, y);
      ValuedAttribute(t, |name|, |name| + |space|, name, space, MapPiece(p, prefix).value.value, y);
    } else {
      BareAttribute(t, |name|, |name| + |space|, name, space, y);
    }
  }

  lemma AttributeHead(s: string, n: nat, k: nat, p: Piece, prefix: string, y: string)
    requires BeginsAttribute(s) && n == NameEnd(s) && k == SpaceEnd(s, n) && p == AttributeAt(s, n, k).0
    ensures Alike(PieceText(MapPiece(p, prefix), y), s)
  {
    var name, space := s[..n], s[n..k];
    AttributeParts(s, n, k, name, space, p, AttributeAt(s, n, k).1);
    if p.value.Some? {
      HeadOf(name, space, "=" + ValueText(MapPiece(p, prefix).value.value, y));
    } else {
      HeadOf(name, space, y);
    }
  }

  lemma PieceRescan(s: string, prefix: string, y: string)
    requires !AtEnding(s) && Plain(prefix) && Alike(y, NextPiece(s).1)
    ensures var t := PieceText(MapPiece(NextPiece(s).0, prefix), y);
            !AtEnding(t) && Alike(t, s) && NextPiece(t) == (MapPiece(NextPiece(s).0, prefix), y)
  {
    AlikeLooks(y, NextPiece(s).1);
    if Space(s[0]) {
      var n := Span(SpaceChar, s);
      assert n < |s| ==> s[n..][0] == s[n];
      SpanOf(SpaceChar, s[..n], y);
      assert s[..n][0] == s[0];
    } else if s[0] == '/' {
      assert |s| > 1 ==> s[1..][0] == s[1];
      assert ("/" + y)[1..] == y;
    } else {
      AttributeRescan(s, prefix, y);
    }
  }

  lemma EndingRescan(s: string, y: string)
    requires AtEnding(s) && Alike(y, AfterEnding(s))
    ensures var t := EndingText(EndingOf(s), y);
            AtEnding(t) && Alike(t, s) && EndingOf(t) == EndingOf(s) && AfterEnding(t) == y
  {
    var t := EndingText(EndingOf(s), y);
    if s != "" {
      if s[0] == '>' { assert t[1..] == y; } else { assert t[2..] == y; }
    }
  }

  lemma MapPiecesFirst(p: Piece, ps: seq<Piece>, prefix: string, rest: string)
    ensures MapPieces([p] + ps, prefix) == [MapPiece(p, prefix)] + MapPieces(ps, prefix)
    ensures PiecesText(MapPieces([p] + ps, prefix), rest)
            == PieceText(MapPiece(p, prefix), PiecesText(MapPieces(ps, prefix), rest))
  {
    assert ([p] + ps)[1..] == ps;
    PiecesFirst(MapPiece(p, prefix), MapPieces(ps, prefix), rest);
  }

  /** The rest of a start tag, with its values rewritten, is found again as that. */
  lemma {:induction false} TagRescan(s: string, prefix: string, y: string)
    requires Plain(prefix) && Alike(y, AfterTag(s))
    ensures var t := PiecesText(MapPieces(Pieces(s), prefix), EndingText(TagEnding(s), y));
            Alike(t, s) && Pieces(t) == MapPieces(Pieces(s), prefix) && TagEnding(t) == TagEnding(s) && AfterTag(t) == y
    decreases |s|
  {
    if AtEnding(s) {
      EndingRescan(s, y);
    } else {
      var r := NextPiece(s).1;
      TagRescan(r, prefix, y);
      var z := PiecesText(MapPieces(Pieces(r), prefix), EndingText(TagEnding(r), y));
      PieceRescan(s, prefix, z);
      MapPiecesFirst(NextPiece(s).0, Pieces(r), prefix, EndingText(TagEnding(s), y));
    }
  }

  // --- words ---

  /** Whether a text begins with a word depends only on as many characters. */
  lemma BeginsWithin(a: string, y: string, z: string, word: string)
    requires |word| <= |a|
    ensures Begins(a + y, word) <==> Begins(a + z, word)
  {
    assert (a + y)[..|word|] == a[..|word|] == (a + z)[..|word|];
  }

  lemma {:induction false} FindIs(s: string, word: string, n: nat)
    requires n <= |s| && (forall k :: 0 <= k < n ==> !Css.At(s, k, word)) && (n < |s| ==> Css.At(s, n, word))
    ensures Find(s, word) == n
    decreases |s|
  {
    if n == 0 {
      assert s[0..] == s;
    } else {
      assert !Css.At(s, 0, word) && s[0..] == s;
      forall k | 0 <= k < n - 1 ensures !Css.At(s[1..], k, word) {
        assert s[1..][k..] == s[k + 1..] && !Css.At(s, k + 1, word);
      }
      assert s[1..][n - 1..] == s[n..];
      FindIs(s[1..], word, n - 1);
    }
  }

  lemma {:induction false} FindFinds(s: string, word: string)
    ensures var n := Find(s, word); (forall k :: 0 <= k < n ==> !Css.At(s, k, word)) && (n < |s| ==> Css.At(s, n, word))
    decreases |s|
  {
    if s == "" || Begins(s, word) {
      assert s[0..] == s;
    } else {
      FindFinds(s[1..], word);
      var n := Find(s[1..], word);
      forall k | 0 <= k < n + 1 ensures !Css.At(s, k, word) {
        if k == 0 { assert s[0..] == s; }
        else { assert s[1..][k - 1..] == s[k..] && !Css.At(s[1..], k - 1, word); }
      }
      assert s[1..][n..] == s[n + 1..];
    }
  }

  /** A word found within the first part of a text is found there whatever follows. */
  lemma {:induction false} FindWithin(a: string, y: string, z: string, word: string)
    requires word != "" && Find(a + y, word) + |word| <= |a|
    ensures Find(a + z, word) == Find(a + y, word)
    decreases |a|
  {
    BeginsWithin(a, y, z, word);
    if !Begins(a + y, word) {
      assert (a + y)[1..] == a[1..] + y && (a + z)[1..] == a[1..] + z;
      FindWithin(a[1..], y, z, word);
    }
  }

  // --- comments and declarations ---

  lemma ThroughRescan(s: string, from: nat, word: string, y: string)
    requires word != "" && from <= |s| && Alike(y, s[Through(s, from, word)..])
    ensures var n := Through(s, from, word);
            Through(s[..n] + y, from, word) == n && (s[..n] + y)[..n] == s[..n] && (s[..n] + y)[n..] == y
  {
    var n := Through(s, from, word);
    var k := from + Find(s[from..], word);
    var t := s[..n] + y;
    if k + |word| <= |s| {
      var a := s[from..n];
      assert s[from..] == a + s[n..] && t[from..] == a + y;
      FindWithin(a, s[n..], y, word);
    } else {
      assert y == "" && t == s;
    }
  }

  lemma CommentRescan(s: string, y: string)
    requires s != "" && s[0] == '<' && Begins(s, "<!--") && Alike(y, Step(s).1)
    ensures var t := Text(Step(s).0) + y; t != "" && Step(t) == (Step(s).0, y)
  {
    var n := Through(s, 4, "-->");
    ThroughRescan(s, 4, "-->", y);
    OneToken(Comment(s[..n]));
    BeginsWithin(s[..n], s[n..], y, "<!--");
    assert s[..n] + s[n..] == s;
  }

  lemma OneToken(t: Token)
    requires t.Run? || t.Comment? || t.Declaration?
    ensures Text([t]) == t.text
  {
    assert [t][1..] == [];
    assert t.text + "" == t.text;
  }

  /** A declaration that is no comment: its third and fourth characters are not both dashes, unless the text ends. */
  lemma DeclarationIsNoComment(s: string, n: nat, y: string)
    requires OpensMarkup(s) && !Begins(s, "<!--") && n == Through(s, 1, ">") && (n == |s| ==> y == "")
    ensures n >= 2 && OpensMarkup(s[..n] + y) && !Begins(s[..n] + y, "<!--")
  {
    FindFinds(s[1..], ">");
    var k := 1 + Find(s[1..], ">");
    if n == |s| {
      assert s[..n] + y == s;
    } else {
      assert s[1..][k - 1..] == s[k..] && Begins(s[k..], ">");
      Css.BeginsRest(s[k..], ">");
      assert s[k] == s[k..][0] && Lower(s[k]) == '>';
      assert n == k + 1 && (s[..n] + y)[k] == s[k];
      if n >= 4 {
        BeginsWithin(s[..n], s[n..], y, "<!--");
        assert s[..n] + s[n..] == s;
      } else {
        NotDash(s[..n] + y, k);
      }
    }
  }

  lemma NotDash(t: string, k: nat)
    requires 1 < k < 4 && k < |t| && Lower(t[k]) == '>'
    ensures !Begins(t, "<!--")
  {
    if |t| >= 4 { assert LowerAll(t[..4])[k] == '>'; }
  }

  lemma DeclarationRescan(s: string, y: string)
    requires OpensMarkup(s) && !Begins(s, "<!--") && Alike(y, Step(s).1)
    ensures var t := Text(Step(s).0) + y; t != "" && Step(t) == (Step(s).0, y)
  {
    var n := Through(s, 1, ">");
    ThroughRescan(s, 1, ">", y);
    OneToken(Declaration(s[..n]));
    DeclarationIsNoComment(s, n, y);
  }

  lemma RunRescan(s: string, y: string)
    requires s != "" && s[0] != '<' && Alike(y, Step(s).1)
    ensures var t := Text(Step(s).0) + y; t != "" && Step(t) == (Step(s).0, y)
  {
    var n := Span(Not('<'), s);
    AlikeLooks(y, s[n..]);
    assert n < |s| ==> s[n..][0] == s[n];
    OneToken(Run(s[..n]));
    SpanOf(Not('<'), s[..n], y);
    assert (s[..n] + y)[0] == s[0];
  }

  lemma CommentOpensMarkup(t: string)
    ensures Begins(t, "<!--") ==> OpensMarkup(t)
  {
    if Begins(t, "<!--") { assert LowerAll(t[..4])[1] == '!' && LowerAll(t[..4])[0] == '<'; }
  }

  lemma LessThanRescan(s: string, y: string)
    requires s != "" && s[0] == '<' && !Begins(s, "<!--") && !OpensMarkup(s) && !OpensTag(s) && Alike(y, Step(s).1)
    ensures var t := "<" + y; Step(t) == (Step(s).0, y)
  {
    var t := "<" + y;
    AlikeLooks(y, s[1..]);
    assert t[1..] == y;
    assert |s| > 1 ==> s[1..][0] == s[1];
    CommentOpensMarkup(t);
  }

  // --- raw text ---

  /** The word that ends a raw-text element. */
  predicate EndWord(word: string) { exists name :: name in RAW_TEXT && word == "</" + name }

  lemma EndWordLooks(word: string)
    requires EndWord(word)
    ensures |word| > 2 && word[0] == '<' && word[1] == '/' && forall k :: 1 <= k < |word| ==> word[k] != '<'
  {
    var name :| name in RAW_TEXT && word == "</" + name;
    assert '<' !in name;
    forall k | 1 <= k < |word| ensures word[k] != '<' {
      if k >= 2 { assert word[k] == name[k - 2] && name[k - 2] in name; }
    }
  }

  /** A body without the end word, before nothing or the end word, ends where it did. */
  lemma BodyRescan(body: string, y: string, word: string)
    requires EndWord(word) && Css.Lacks(body, word) && (y != "" ==> Begins(y, word))
    ensures Find(body + y, word) == |body| && (body + y)[..|body|] == body && (body + y)[|body|..] == y
  {
    EndWordLooks(word);
    var t := body + y;
    forall k | 0 <= k < |body| ensures !Css.At(t, k, word) {
      assert !Css.At(body, k, word);
      BodyLacks(body, y, word, k);
    }
    assert t[|body|..] == y;
    FindIs(t, word, |body|);
  }

  lemma BodyLacks(body: string, y: string, word: string, k: nat)
    requires k < |body| && !Begins(body[k..], word) && (y != "" ==> Begins(y, word))
    requires |word| > 2 && word[0] == '<' && forall j :: 1 <= j < |word| ==> word[j] != '<'
    ensures !Begins((body + y)[k..], word)
  {
    var rest := body[k..];
    assert (body + y)[k..] == rest + y;
    if |word| <= |rest| {
      BeginsWithin(rest, y, "", word);
      assert rest + "" == rest;
    } else if y != "" {
      BoundaryLess(rest, y, word);
    }
  }

  lemma BoundaryLess(rest: string, y: string, word: string)
    requires 0 < |rest| < |word| && Begins(y, word) && word[0] == '<' && forall j :: 1 <= j < |word| ==> word[j] != '<'
    ensures !Begins(rest + y, word)
  {
    var j := |rest|;
    assert Lower(y[0]) == LowerAll(y[..|word|])[0] == '<';
    if |word| <= |rest + y| {
      assert (rest + y)[..|word|][j] == y[0];
      assert LowerAll((rest + y)[..|word|])[j] == '<';
    }
  }

  lemma BodyIsFree(rest: string, word: string)
    requires word != ""
    ensures Css.Lacks(rest[..Find(rest, word)], word)
  {
    FindFinds(rest, word);
    var n := Find(rest, word);
    forall k | 0 <= k <= n ensures !Css.At(rest[..n], k, word) {
      if k < n && Begins(rest[..n][k..], word) {
        BeginsWithin(rest[..n][k..], rest[n..], "", word);
        assert rest[..n][k..] + rest[n..] == rest[k..] && rest[..n][k..] + "" == rest[..n][k..];
      }
      assert k < n ==> !Css.At(rest, k, word);
    }
  }

  /** What the rewrite leaves of the text after a raw-text body still begins with the element's end word. */
  lemma {:induction false} EndWordKept(r: string, prefix: string, word: string)
    requires EndWord(word) && r != "" && Begins(r, word)
    ensures Begins(Rewrite(r, prefix), word)
  {
    EndWordLooks(word);
    Css.BeginsRest(r, word);
    Css.BeginsRest(r[1..], word[1..]);
    assert r[1] == r[1..][0] && r[0] == '<' && r[1] == '/';
    CommentOpensMarkup(r);
    assert Step(r) == ([LessThan], r[1..]);
    RunKept(r[1..], prefix, word[1..]);
    MapTokensFirst(LessThan, Scan(r[1..]), prefix);
    assert ("<" + Rewrite(r[1..], prefix))[1..] == Rewrite(r[1..], prefix);
    Css.BeginsFirst("<" + Rewrite(r[1..], prefix), word);
  }

  lemma MapTokensFirst(t: Token, ts: seq<Token>, prefix: string)
    ensures MapTokens([t] + ts, prefix) == [MapToken(t, prefix)] + MapTokens(ts, prefix)
    ensures Text(MapTokens([t] + ts, prefix)) == TokenText(MapToken(t, prefix), Text(MapTokens(ts, prefix)))
  {
    assert ([t] + ts)[1..] == ts;
    TextFirst(MapToken(t, prefix), MapTokens(ts, prefix));
  }

  lemma RunKept(s: string, prefix: string, word: string)
    requires word != "" && Begins(s, word) && s[0] != '<' && forall k :: 0 <= k < |word| ==> word[k] != '<'
    ensures Begins(Rewrite(s, prefix), word)
  {
    var n := Span(Not('<'), s);
    RunCovers(s, word, n);
    MapTokensFirst(Run(s[..n]), Scan(s[n..]), prefix);
    BeginsWithin(s[..n], s[n..], Rewrite(s[n..], prefix), word);
    assert s[..n] + s[n..] == s;
  }

  lemma RunCovers(s: string, word: string, n: nat)
    requires Begins(s, word) && n == Span(Not('<'), s) && forall k :: 0 <= k < |word| ==> word[k] != '<'
    ensures |word| <= n
  {
    forall k | 0 <= k < |word| ensures s[k] != '<' { assert LowerAll(s[..|word|])[k] == word[k]; }
  }

  // --- tags ---

  /** The text of a scanned start tag, rewritten, before `y`. */
  function TagAfter(s: string, prefix: string, y: string): string
    requires OpensTag(s)
  {
    "<" + (TagName(s) + PiecesText(MapPieces(Pieces(AfterName(s)), prefix), EndingText(TagEnding(AfterName(s)), y)))
  }

  lemma TagNameRescan(s: string, name: string, t: string, u: string)
    requires OpensTag(s) && name == TagName(s) && t == AfterName(s) && Alike(u, t)
    ensures var v := "<" + (name + u);
            OpensTag(v) && !Begins(v, "<!--") && !OpensMarkup(v) && TagName(v) == name && AfterName(v) == u
  {
    AlikeLooks(u, t);
    var n := Span(TagNameChar, s[1..]);
    assert s[1..][0] == s[1] && n > 0 && name == s[1..][..n] && t == s[1..][n..];
    assert n < |s[1..]| ==> t[0] == s[1..][n];
    SpanOf(TagNameChar, name, u);
    var v := "<" + (name + u);
    assert v[1..] == name + u && v[1] == name[0] && name[0] == s[1];
    assert v[1..][..n] == v[1..1 + n] && v[1..][n..] == v[1 + n..];
    CommentOpensMarkup(v);
  }

  lemma TagAfterRescan(s: string, prefix: string, y: string)
    requires OpensTag(s) && Plain(prefix) && Alike(y, AfterTag(AfterName(s)))
    ensures var v := TagAfter(s, prefix, y);
            && OpensTag(v) && !Begins(v, "<!--") && !OpensMarkup(v) && TagName(v) == TagName(s)
            && Pieces(AfterName(v)) == MapPieces(Pieces(AfterName(s)), prefix)
            && TagEnding(AfterName(v)) == TagEnding(AfterName(s)) && AfterTag(AfterName(v)) == y
  {
    var t := AfterName(s);
    TagRescan(t, prefix, y);
    TagNameRescan(s, TagName(s), t, PiecesText(MapPieces(Pieces(t), prefix), EndingText(TagEnding(t), y)));
  }

  predicate OnlyTag(v: string) { OpensTag(v) && !Begins(v, "<!--") && !OpensMarkup(v) }

  lemma StepOfTag(v: string, name: string, ps: seq<Piece>, e: Ending, y: string)
    requires OnlyTag(v) && TagName(v) == name && Pieces(AfterName(v)) == ps && TagEnding(AfterName(v)) == e
             && AfterTag(AfterName(v)) == y
    ensures !OpensRawText(name, e) ==> Step(v) == ([Tag(name, ps, e)], y)
    ensures OpensRawText(name, e) ==>
              var n := Find(y, "</" + LowerAll(name));
              Step(v) == ([Tag(name, ps, e), RawText(LowerAll(name), y[..n])], y[n..])
  {
  }

  lemma TagStepLength(s: string)
    requires OnlyTag(s)
    ensures |TokenText(Tag(TagName(s), Pieces(AfterName(s)), TagEnding(AfterName(s))), "")|
            == |s| - |AfterTag(AfterName(s))|
  {
    TagStep(s);
    TagTextLength(Pieces(AfterName(s)), TagEnding(AfterName(s)), AfterTag(AfterName(s)));
  }

  lemma {:induction false} TagTextLength(ps: seq<Piece>, e: Ending, r: string)
    ensures |PiecesText(ps, EndingText(e, r))| == |PiecesText(ps, EndingText(e, ""))| + |r|
  {
    if ps != [] { TagTextLength(ps[1..], e, r); }
  }

  lemma MapOne(t: Token, prefix: string)
    ensures MapTokens([t], prefix) == [MapToken(t, prefix)]
  {
    assert [t][1..] == [];
    assert MapTokens([t], prefix) == [MapToken(t, prefix)] + MapTokens([], prefix);
  }

  lemma MapTwo(a: Token, b: Token, prefix: string)
    ensures MapTokens([a, b], prefix) == [MapToken(a, prefix), MapToken(b, prefix)]
  {
    assert [a, b][1..] == [b];
    MapOne(b, prefix);
    assert MapTokens([a, b], prefix) == [MapToken(a, prefix)] + MapTokens([b], prefix);
  }

  lemma PlainTagRescan(s: string, prefix: string, y: string)
    requires OnlyTag(s) && Plain(prefix) && Alike(y, Step(s).1)
    requires !OpensRawText(TagName(s), TagEnding(AfterName(s)))
    ensures var v := TagAfter(s, prefix, y); Step(v) == (MapTokens(Step(s).0, prefix), y)
  {
    var name, ps, e := TagName(s), Pieces(AfterName(s)), TagEnding(AfterName(s));
    StepOfTag(s, name, ps, e, AfterTag(AfterName(s)));
    TagAfterRescan(s, prefix, y);
    StepOfTag(TagAfter(s, prefix, y), name, MapPieces(ps, prefix), e, y);
    MapOne(Tag(name, ps, e), prefix);
  }

  /** The rewritten body of a raw-text element. */
  function NewBody(name: string, body: string, prefix: string): string {
    if name == "style" then Css.Rewrite(body, prefix) else body
  }

  lemma NewBodyLacks(name: string, body: string, prefix: string)
    requires name in RAW_TEXT && Css.Lacks(body, "</" + name) && Plain(prefix)
    ensures Css.Lacks(NewBody(name, body, prefix), "</" + name)
    ensures Alike(NewBody(name, body, prefix), body)
  {
    if name == "style" {
      assert '<' !in prefix;
      assert "</" + name == "</style";
      Css.RewriteLacks(body, prefix, "</style");
      if body != "" {
        Css.UrlsHead(body, prefix);
        Css.ImportsHead(Css.RewriteUrls(body, prefix), prefix);
      }
    }
  }

  lemma RawTagRescan(s: string, prefix: string, y: string, name: string, rest: string, n: nat)
    requires OnlyTag(s) && Plain(prefix) && name == LowerAll(TagName(s)) && rest == AfterTag(AfterName(s))
             && n == Find(rest, "</" + name)
    requires OpensRawText(TagName(s), TagEnding(AfterName(s))) && Alike(y, rest[n..])
             && (y != "" ==> Begins(y, "</" + name))
    ensures Step(TagAfter(s, prefix, NewBody(name, rest[..n], prefix) + y)) == (MapTokens(Step(s).0, prefix), y)
  {
    var word, body := "</" + name, rest[..n];
    var z := NewBody(name, body, prefix);
    BodyIsFree(rest, word);
    NewBodyLacks(name, body, prefix);
    assert EndWord(word);
    BodyRescan(z, y, word);
    Cut2(rest, n);
    AlikeConcat(z, body, y, rest[n..]);
    TagAfterRescan(s, prefix, z + y);
    var ps, e := Pieces(AfterName(s)), TagEnding(AfterName(s));
    StepOfTag(s, TagName(s), ps, e, rest);
    StepOfTag(TagAfter(s, prefix, z + y), TagName(s), MapPieces(ps, prefix), e, z + y);
    MapTwo(Tag(TagName(s), ps, e), RawText(name, body), prefix);
  }

  lemma AlikeConcat(a: string, b: string, y: string, r: string)
    requires Alike(a, b) && Alike(y, r)
    ensures Alike(a + y, b + r)
  {
  }

  // --- the document ---

  /** The text of one step's tokens, rewritten, before `y`. */
  function StepAfter(s: string, prefix: string, y: string): string
    requires s != ""
  {
    if OpensTag(s) && !Begins(s, "<!--") && !OpensMarkup(s) then
      if OpensRawText(TagName(s), TagEnding(AfterName(s))) then
        var name := LowerAll(TagName(s));
        var rest := AfterTag(AfterName(s));
        TagAfter(s, prefix, NewBody(name, rest[..Find(rest, "</" + name)], prefix) + y)
      else TagAfter(s, prefix, y)
    else if s[0] == '<' && !Begins(s, "<!--") && !OpensMarkup(s) then "<" + y
    else Text(Step(s).0) + y
  }

  lemma StepRescan(s: string, prefix: string, y: string)
    requires s != "" && Plain(prefix) && Alike(y, Step(s).1)
    requires OpensTag(s) && OpensRawText(TagName(s), TagEnding(AfterName(s))) && y != "" ==>
               Begins(y, "</" + LowerAll(TagName(s)))
    ensures var t := StepAfter(s, prefix, y); t != "" && Step(t) == (MapTokens(Step(s).0, prefix), y)
  {
    if s[0] == '<' && OnlyTag(s) {
      if OpensRawText(TagName(s), TagEnding(AfterName(s))) {
        var rest := AfterTag(AfterName(s));
        var name := LowerAll(TagName(s));
        RawTagRescan(s, prefix, y, name, rest, Find(rest, "</" + name));
      } else {
        PlainTagRescan(s, prefix, y);
      }
    } else {
      MapOne(Step(s).0[0], prefix);
      CommentOpensMarkup(s);
      if s[0] != '<' { RunRescan(s, y); }
      else if Begins(s, "<!--") { CommentRescan(s, y); }
      else if OpensMarkup(s) { DeclarationRescan(s, y); }
      else { LessThanRescan(s, y); }
    }
  }

  /** The rewrite of a document is the rewrite of its first step before the rewrite of the rest. */
  lemma StepText(s: string, prefix: string)
    requires s != ""
    ensures Rewrite(s, prefix) == StepAfter(s, prefix, Rewrite(Step(s).1, prefix))
  {
    if OnlyTag(s) {
      TagStepText(s, prefix, TagName(s), Pieces(AfterName(s)), TagEnding(AfterName(s)), AfterTag(AfterName(s)));
    } else {
      CommentOpensMarkup(s);
      OneText(Step(s).0[0], Scan(Step(s).1), prefix);
    }
  }

  lemma TagAfterIs(s: string, prefix: string, t: Token, y: string)
    requires OpensTag(s) && t == Tag(TagName(s), Pieces(AfterName(s)), TagEnding(AfterName(s)))
    ensures TagAfter(s, prefix, y) == TokenText(MapToken(t, prefix), y)
  {
  }

  lemma ScanIs(s: string, ts: seq<Token>, r: string, prefix: string)
    requires s != "" && Step(s) == (ts, r)
    ensures Rewrite(s, prefix) == Text(MapTokens(ts + Scan(r), prefix))
  {
  }

  lemma TagStepText(s: string, prefix: string, name: string, ps: seq<Piece>, e: Ending, rest: string)
    requires OnlyTag(s) && name == TagName(s) && ps == Pieces(AfterName(s)) && e == TagEnding(AfterName(s))
             && rest == AfterTag(AfterName(s))
    ensures Rewrite(s, prefix) == StepAfter(s, prefix, Rewrite(Step(s).1, prefix))
  {
    StepOfTag(s, name, ps, e, rest);
    if OpensRawText(name, e) {
      RawStepText(s, prefix, Tag(name, ps, e), LowerAll(name), rest, Find(rest, "</" + LowerAll(name)));
    } else {
      PlainStepText(s, prefix, Tag(name, ps, e), rest);
    }
  }

  lemma PlainStepText(s: string, prefix: string, t: Token, rest: string)
    requires s != "" && OpensTag(s) && t == Tag(TagName(s), Pieces(AfterName(s)), TagEnding(AfterName(s)))
             && Step(s) == ([t], rest)
    ensures Rewrite(s, prefix) == TagAfter(s, prefix, Rewrite(rest, prefix))
  {
    ScanIs(s, [t], rest, prefix);
    OneText(t, Scan(rest), prefix);
    TagAfterIs(s, prefix, t, Rewrite(rest, prefix));
  }

  lemma RawStepText(s: string, prefix: string, t: Token, name: string, rest: string, n: nat)
    requires s != "" && OpensTag(s) && t == Tag(TagName(s), Pieces(AfterName(s)), TagEnding(AfterName(s)))
             && n <= |rest|
    requires Step(s) == ([t, RawText(name, rest[..n])], rest[n..])
    ensures Rewrite(s, prefix) == TagAfter(s, prefix, NewBody(name, rest[..n], prefix) + Rewrite(rest[n..], prefix))
  {
    var u := RawText(name, rest[..n]);
    ScanIs(s, [t, u], rest[n..], prefix);
    TwoText(t, u, Scan(rest[n..]), prefix);
    assert TokenText(MapToken(u, prefix), Rewrite(rest[n..], prefix))
           == NewBody(name, rest[..n], prefix) + Rewrite(rest[n..], prefix);
    TagAfterIs(s, prefix, t, NewBody(name, rest[..n], prefix) + Rewrite(rest[n..], prefix));
  }

  lemma TwoText(t: Token, u: Token, ts: seq<Token>, prefix: string)
    ensures Text(MapTokens([t, u] + ts, prefix)) == TokenText(MapToken(t, prefix),
                                                              TokenText(MapToken(u, prefix),
                                                                        Text(MapTokens(ts, prefix))))
  {
    assert [t, u] + ts == [t] + ([u] + ts);
    MapTokensFirst(t, [u] + ts, prefix);
    MapTokensFirst(u, ts, prefix);
  }

  lemma OneText(t: Token, ts: seq<Token>, prefix: string)
    ensures Text(MapTokens([t] + ts, prefix)) == TokenText(MapToken(t, prefix), Text(MapTokens(ts, prefix)))
    ensures t.Run? || t.Comment? || t.Declaration? ==>
              Text(MapTokens([t] + ts, prefix)) == Text([t]) + Text(MapTokens(ts, prefix))
  {
    MapTokensFirst(t, ts, prefix);
    if t.Run? || t.Comment? || t.Declaration? { OneToken(t); }
  }

  lemma StepAlike(s: string, prefix: string, y: string)
    requires s != ""
    ensures Alike(StepAfter(s, prefix, y), s)
  {
    if s[0] != '<' {
      OneToken(Step(s).0[0]);
    } else if Begins(s, "<!--") {
      CommentOpensMarkup(s);
      OneToken(Step(s).0[0]);
    } else if OpensMarkup(s) {
      OneToken(Step(s).0[0]);
    }
  }

  /** At a raw-text element the rest of the document begins with its end word, rewritten or not. */
  lemma RestBegins(s: string, prefix: string, y: string)
    requires OpensTag(s) && !Begins(s, "<!--") && !OpensMarkup(s) && OpensRawText(TagName(s), TagEnding(AfterName(s)))
    requires y == Rewrite(Step(s).1, prefix) && Alike(y, Step(s).1)
    ensures y != "" ==> Begins(y, "</" + LowerAll(TagName(s)))
  {
    var word := "</" + LowerAll(TagName(s));
    var rest := AfterTag(AfterName(s));
    FindFinds(rest, word);
    assert EndWord(word);
    if y != "" { EndWordKept(rest[Find(rest, word)..], prefix, word); }
  }

  /**
   Scanning the rewritten document gives the original's comments, tags, attribute names, quoting and
   raw-text blocks, with each value and style body changed as intended and nothing else.
   */
  lemma {:induction false} RescanIsMapped(s: string, prefix: string)
    requires Plain(prefix)
    ensures Scan(Rewrite(s, prefix)) == MapTokens(Scan(s), prefix) && Alike(Rewrite(s, prefix), s)
    decreases |s|
  {
    if s != "" {
      var r := Step(s).1;
      RescanIsMapped(r, prefix);
      var y := Rewrite(r, prefix);
      StepText(s, prefix);
      CommentOpensMarkup(s);
      if OpensTag(s) && OpensRawText(TagName(s), TagEnding(AfterName(s))) { RestBegins(s, prefix, y); }
      StepRescan(s, prefix, y);
      StepAlike(s, prefix, y);
      MapTokensConcat(Step(s).0, Scan(r), prefix);
    }
  }

  lemma {:induction false} MapTokensConcat(a: seq<Token>, b: seq<Token>, prefix: string)
    ensures MapTokens(a + b, prefix) == MapTokens(a, prefix) + MapTokens(b, prefix)
  {
    if a == [] {
      assert a + b == b;
    } else {
      var t, ts := a[0], a[1..];
      MapTokensConcat(ts, b, prefix);
      assert a == [t] + ts && a + b == [t] + (ts + b);
      MapTokensFirst(t, ts, prefix);
      MapTokensFirst(t, ts + b, prefix);
      JoinedTokens([MapToken(t, prefix)], MapTokens(ts, prefix), MapTokens(b, prefix));
    }
  }

  lemma JoinedTokens(a: seq<Token>, b: seq<Token>, c: seq<Token>)
    ensures a + b + c == a + (b + c)
  {
  }
}
