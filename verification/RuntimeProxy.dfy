/**
 The proxy's rewrite of a document as it is computed: a scanner that moves an index over the body and
 collects edits in place, and a splice of the edits.

 The scanner is proved to collect exactly the edits of the document's tokens, in order, in bounds and
 disjoint, and the splice of those edits to be the token rewrite. The lemmas between the methods give
 the position of each part of a token in the body, and splice one part at a time.
 */
module RuntimeProxy {
  import opened Wrappers
  import opened Chars
  import opened Html
  import opened HtmlRewrite
  import opened UrlResolution
  import HtmlRescan
  import Css

  datatype ParsedAttribute = ParsedAttribute(name: string, value: Option<string>, start: nat, end: nat)
  datatype Edit = Edit(start: nat, end: nat, text: string)

  // --- positions ---

  function ValueStart(v: Value): nat { |v.space| + if v.quoting.Quoted? then 1 else 0 }

  /** Where attribute values sit, for pieces that begin at `at`; an attribute without a name is not recorded. */
  function AttributesOf(ps: seq<Piece>, at: nat): seq<ParsedAttribute> {
    if ps == [] then [] else AttributeOf(ps[0], at) + AttributesOf(ps[1..], at + |PieceText(ps[0], "")|)
  }

  function AttributeOf(p: Piece, at: nat): seq<ParsedAttribute> {
    if !p.Attribute? || p.name == "" then []
    else
      var after := at + |p.name| + |p.space|;
      match p.value
      case None => [ParsedAttribute(LowerAll(p.name), None, after, after)]
      case Some(v) => [ParsedAttribute(LowerAll(p.name), Some(v.text), after + 1 + ValueStart(v),
                                       after + 1 + ValueStart(v) + |v.text|)]
  }

  function EditOf(a: ParsedAttribute, prefix: string): seq<Edit> {
    if a.value.None? then []
    else
      var r := RewriteAttribute(a.name, a.value.value, prefix);
      if r.None? || r.value == a.value.value then [] else [Edit(a.start, a.end, r.value)]
  }

  function AttributeEdits(attributes: seq<ParsedAttribute>, prefix: string): seq<Edit> {
    if attributes == [] then [] else EditOf(attributes[0], prefix) + AttributeEdits(attributes[1..], prefix)
  }

  function StyleEdit(text: string, at: nat, prefix: string): seq<Edit> {
    if Css.Rewrite(text, prefix) == text then [] else [Edit(at, at + |text|, Css.Rewrite(text, prefix))]
  }

  /** Where the name of a tag that opens at `at` ends. */
  function NameEndAt(at: nat, name: string): nat { at + 1 + |name| }

  /** The edits of a token that begins at `at`: only attribute values and style bodies have any. */
  function TokenEdits(t: Token, at: nat, prefix: string): seq<Edit> {
    match t
    case Tag(name, pieces, _) => AttributeEdits(AttributesOf(pieces, NameEndAt(at, name)), prefix)
    case RawText(name, text) => if name == "style" then StyleEdit(text, at, prefix) else []
    case _ => []
  }

  /** Where a token that begins at `at` ends. */
  function TokenEnd(t: Token, at: nat): nat { at + |TokenText(t, "")| }

  function EditsOf(ts: seq<Token>, at: nat, prefix: string): seq<Edit> {
    if ts == [] then []
    else TokenEdits(ts[0], at, prefix) + EditsOf(ts[1..], TokenEnd(ts[0], at), prefix)
  }

  // --- splicing ---

  /** In order, disjoint, and between two positions. */
  predicate InOrder(edits: seq<Edit>, from: nat, to: nat) {
    if edits == [] then from <= to
    else from <= edits[0].start <= edits[0].end && InOrder(edits[1..], edits[0].end, to)
  }

  lemma {:induction false} InOrderWithin(edits: seq<Edit>, from: nat, to: nat)
    requires InOrder(edits, from, to)
    ensures from <= to && (edits != [] ==> edits[0].end <= to)
  {
    if edits != [] { InOrderWithin(edits[1..], edits[0].end, to); }
  }

  /** The text `s`, which begins at position `at`, with its edits made. */
  function Splice(s: string, edits: seq<Edit>, at: nat): string
    requires InOrder(edits, at, at + |s|)
    decreases edits
  {
    InOrderWithin(edits, at, at + |s|);
    if edits == [] then s
    else
      var e := edits[0];
      s[..e.start - at] + (e.text + Splice(s[e.end - at..], edits[1..], e.end))
  }

  /** Making the edits in the text `s`, from position `at` to `to`, gives `out`. */
  ghost predicate Splices(s: string, edits: seq<Edit>, at: nat, to: nat, out: string) {
    to == at + |s| && InOrder(edits, at, to) && Splice(s, edits, at) == out
  }

  lemma SpliceOnce(s: string, edits: seq<Edit>, at: nat, to: nat, k: nat, m: nat)
    requires edits != [] && to == at + |s| && InOrder(edits, at, to) && k == edits[0].start - at
             && m == edits[0].end - at
    ensures k <= m <= |s| && InOrder(edits[1..], edits[0].end, to) && edits[0].end + |s[m..]| == to
    ensures Splice(s, edits, at) == s[..k] + (edits[0].text + Splice(s[m..], edits[1..], edits[0].end))
  {
    InOrderWithin(edits, at, to);
  }

  method ApplyEdits(body: string, edits: seq<Edit>) returns (out: string)
    requires InOrder(edits, 0, |body|)
    ensures out == Splice(body, edits, 0)
  {
    out := "";
    var cursor: nat, i: nat := 0, 0;
    ghost var rest, left, to, all := body, edits, |body|, Splice(body, edits, 0);
    ghost var due := all; // what the rest becomes
    while i < |edits|
      invariant 0 <= i <= |edits| && cursor + |rest| == to == |body| && rest == body[cursor..] && left == edits[i..]
      invariant Splices(rest, left, cursor, to, due) && out + due == all
    {
      var edit := edits[i];
      ghost var skipped, taken := edit.start - cursor, edit.end - cursor;
      Suffixes(body, cursor, edit.start, edit.end, to, rest, left, skipped, taken);
      var kept := body[cursor..edit.start];
      ghost var after := SpliceRest(rest, left, cursor, to, edit, skipped, taken, kept, due);
      Regroup(out, kept, edit.text, after, due);
      out := out + (kept + edit.text);
      cursor, rest, left, due := edit.end, rest[taken..], left[1..], after;
      i := i + 1;
    }
    out := out + body[cursor..];
  }

  /** What is left to become of the rest once its first edit is made. */
  lemma SpliceRest(rest: string, left: seq<Edit>, cursor: nat, to: nat, edit: Edit, skipped: nat, taken: nat,
      kept: string, due: string) returns (after: string)
    requires left != [] && edit == left[0] && Splices(rest, left, cursor, to, due)
    requires skipped == edit.start - cursor && taken == edit.end - cursor && skipped <= |rest|
             && kept == rest[..skipped]
    ensures taken <= |rest| && Splices(rest[taken..], left[1..], edit.end, to, after)
    ensures due == kept + (edit.text + after)
  {
    SpliceOnce(rest, left, cursor, to, skipped, taken);
    after := Splice(rest[taken..], left[1..], edit.end);
  }

  lemma Regroup(out: string, a: string, b: string, c: string, whole: string)
    requires whole == a + (b + c)
    ensures out + (a + b) + c == out + whole
  {
    Assoc(a, b, c);
    Assoc(out, a + b, c);
  }

  lemma Suffixes(body: string, cursor: nat, start: nat, end: nat, to: nat, rest: string, left: seq<Edit>, skipped: nat,
      taken: nat)
    requires left != [] && left[0].start == start && left[0].end == end && to == |body| && InOrder(left, cursor, to)
    requires cursor <= |body| && rest == body[cursor..] && skipped == start - cursor && taken == end - cursor
    ensures cursor <= start <= end <= |body| && rest[..skipped] == body[cursor..start] && rest[taken..] == body[end..]
  {
    InOrderWithin(left, cursor, to);
  }

  lemma SkipSlices(a: string, r: string, u: string, k: nat, m: nat, k': nat, m': nat)
    requires u == a + r && k <= |r| && m <= |r| && k' == |a| + k && m' == |a| + m
    ensures u[..k'] == a + r[..k] && u[m'..] == r[m..]
  {
  }

  /** Text before the first edit is copied. */
  lemma SpliceSkip(a: string, r: string, edits: seq<Edit>, at: nat, next: nat, to: nat)
    requires next == at + |a| && to == next + |r| && InOrder(edits, next, to)
    ensures InOrder(edits, at, to) && Splice(a + r, edits, at) == a + Splice(r, edits, next)
  {
    if edits != [] {
      InOrderWithin(edits, next, to);
      SpliceBefore(a, r, a + r, edits, at, next, to, edits[0].start - next, edits[0].end - next, edits[0].start - at,
                   edits[0].end - at);
    }
  }

  lemma SpliceBefore(a: string, r: string, u: string, edits: seq<Edit>, at: nat, next: nat, to: nat, k: nat, m: nat,
      k': nat, m': nat)
    requires edits != [] && InOrder(edits, next, to) && InOrder(edits, at, to) && u == a + r && next == at + |a|
             && to == next + |r|
    requires k == edits[0].start - next && m == edits[0].end - next && k' == edits[0].start - at
             && m' == edits[0].end - at
    ensures Splice(u, edits, at) == a + Splice(r, edits, next)
  {
    SpliceOnce(r, edits, next, to, k, m);
    SpliceOnce(u, edits, at, to, k', m');
    SkipSlices(a, r, u, k, m, k', m');
    Assoc(a, r[..k], edits[0].text + Splice(r[m..], edits[1..], edits[0].end));
  }

  /** An edit replaces its text. */
  lemma SpliceEdit(v: string, r: string, text: string, edits: seq<Edit>, at: nat, end: nat, to: nat)
    requires end == at + |v| && to == end + |r| && InOrder(edits, end, to)
    ensures InOrder([Edit(at, end, text)] + edits, at, to)
    ensures Splice(v + r, [Edit(at, end, text)] + edits, at) == text + Splice(r, edits, end)
  {
    var all := [Edit(at, end, text)] + edits;
    assert all[1..] == edits;
    var m := end - at;
    assert (v + r)[m..] == r;
    assert (v + r)[..0] == "";
  }

  // --- scanning ---

  /** `indexOf` for words without letters, and for any word in the lower-cased text. */
  function IndexOf(s: string, word: string, from: nat): (r: int)
    ensures r == -1 || from <= r <= |s|
  {
    if from > |s| then -1
    else
      var k := from + Find(s[from..], word);
      if k + |word| <= |s| then k else -1
  }

  method Skip(p: char -> bool, html: string, from: nat) returns (index: nat)
    requires from <= |html|
    ensures index == from + Span(p, html[from..]) && index <= |html|
  {
    index := from;
    while index < |html| && p(html[index])
      invariant from <= index <= |html|
      invariant Span(p, html[from..]) == index - from + Span(p, html[index..])
    {
      assert html[index..][1..] == html[index + 1..];
      index := index + 1;
    }
  }

  lemma Suffix(html: string, from: nat, n: nat, at: nat)
    requires from + n == at <= |html|
    ensures html[from..][n..] == html[at..] && html[from..][..n] == html[from..at]
  {
  }

  lemma QuotedPositions(html: string, from: nat, n: nat, at: nat, k: nat, end: nat)
    requires from <= |html| && n == Span(SpaceChar, html[from..]) && at == from + n && at < |html|
             && QuoteMark(html[at])
    requires k == Span(Not(html[at]), html[at + 1..]) && end == at + 1 + k
    ensures var (v, rest) := NextValue(html[from..]);
            && html[at + 1..end] == v.text && v.quoting.Quoted? && |v.space| == n
            && rest == html[if end == |html| then end else end + 1..]
  {
    var text, t, u := at + 1, html[at..], html[at + 1..];
    Suffix(html, from, n, at);
    Suffix(html, at, 1, text);
    Suffix(html, text, k, end);
    if end < |html| { Suffix(html, text, k + 1, end + 1); }
    QuotedValue(html[from..], n, t, u, k, html[text..end], html[if end == |html| then end else end + 1..]);
  }

  /** The value after `n` spaces, when what follows them is a quote and `u`, which holds the text and the rest. */
  lemma QuotedValue(s: string, n: nat, t: string, u: string, k: nat, text: string, rest: string)
    requires n == Span(SpaceChar, s) && t == s[n..] && t != "" && QuoteMark(t[0]) && u == t[1..]
    requires k == Span(Not(t[0]), u) && text == u[..k] && rest == if k < |u| then u[k + 1..] else ""
    ensures NextValue(s) == (Value(s[..n], Quoted(t[0], k < |u|), text), rest)
  {
    assert t[1..1 + k] == text;
    assert k < |u| ==> t[k + 2..] == rest;
    assert NextValue(s).0 == Value(s[..n], Quoted(t[0], k < |u|), text);
    assert NextValue(s).1 == rest;
  }

  lemma UnquotedPositions(html: string, from: nat, n: nat, at: nat, k: nat, end: nat)
    requires from <= |html| && n == Span(SpaceChar, html[from..]) && at == from + n
             && (at < |html| ==> !QuoteMark(html[at]))
    requires k == Span(UnquotedChar, html[at..]) && end == at + k
    ensures var (v, rest) := NextValue(html[from..]);
            html[at..end] == v.text && v.quoting == Unquoted && |v.space| == n && rest == html[end..]
  {
    Suffix(html, from, n, at);
    Suffix(html, at, k, end);
    assert at < |html| ==> html[at..][0] == html[at];
  }

  /** The value after an equals sign at `from - 1`: where its text starts and ends, and where the scan goes on. */
  method ParseValue(html: string, from: nat) returns (start: nat, end: nat, index: nat)
    requires from <= |html|
    ensures start <= end <= index <= |html|
    ensures var (v, rest) := NextValue(html[from..]);
            html[start..end] == v.text && start == from + ValueStart(v) && rest == html[index..]
  {
    index := Skip(SpaceChar, html, from);
    ghost var at := index;
    if index < |html| && QuoteMark(html[index]) {
      var quote := html[index];
      start := index + 1;
      end := Skip(Not(quote), html, start);
      QuotedPositions(html, from, at - from, at, end - start, end);
      index := if end == |html| then |html| else end + 1;
    } else {
      start := index;
      end := Skip(UnquotedChar, html, start);
      UnquotedPositions(html, from, at - from, at, end - start, end);
      index := end;
    }
  }

  lemma NamePositions(html: string, from: nat, n: nat, nameEnd: nat, k: nat, index: nat)
    requires from <= |html| && BeginsAttribute(html[from..])
    requires n == Span(NameChar, html[from..]) && nameEnd == from + n && nameEnd <= |html|
    requires index == nameEnd + Span(SpaceChar, html[nameEnd..]) && index == from + k
    ensures var s := html[from..];
            && NextPiece(s) == AttributeAt(s, n, k) && n <= k <= |s|
                && (k == 0 ==> index < |html| && html[index] == '=')
            && html[from..nameEnd] == s[..n] && |s[n..k]| == k - n && s[k..] == html[index..]
            && (k < |s| <==> index < |html|) && (k < |s| ==> s[k] == html[index])
  {
    var s := html[from..];
    Suffix(html, from, n, nameEnd);
    Suffix(html, from, k, index);
    HtmlRescan.NameParts(s, n, k, s[..n], s[n..k], s[k..]);
  }

  lemma BareFound(s: string, from: nat, n: nat, k: nat, name: string)
    requires n <= k <= |s| && name == s[..n] && !(k < |s| && s[k] == '=')
    ensures var (p, rest) := AttributeAt(s, n, k);
            && AttributeOf(p, from) == (if name == "" then []
                                        else [ParsedAttribute(LowerAll(name), None, from + k, from + k)])
            && rest == s[k..]
  {
  }

  lemma ValuedFound(s: string, from: nat, n: nat, k: nat, name: string, inner: string, v: Value, rest: string,
      value: string, start: nat, end: nat)
    requires n <= k < |s| && name == s[..n] && s[k] == '=' && inner == s[k + 1..] && (v, rest) == NextValue(inner)
    requires start == from + k + 1 + ValueStart(v) && end == start + |value| && value == v.text
    ensures AttributeOf(AttributeAt(s, n, k).0, from) == (if name == "" then []
                                                          else [ParsedAttribute(LowerAll(name), Some(value), start,
                                                              end)])
    ensures AttributeAt(s, n, k).1 == rest
  {
  }

  lemma ValuedAt(html: string, from: nat, s: string, n: nat, k: nat, name: string, after: nat, v: Value, value: string,
      start: nat, end: nat, next: nat)
    requires from <= |html| && s == html[from..] && n <= k < |s| && name == s[..n] && s[k] == '='
    requires after == from + k + 1 && next <= |html| && NextValue(html[after..]) == (v, html[next..])
    requires value == v.text && start == after + ValueStart(v) && end == start + |value|
    ensures AttributeOf(AttributeAt(s, n, k).0, from) == (if name == "" then []
                                                          else [ParsedAttribute(LowerAll(name), Some(value), start,
                                                              end)])
    ensures AttributeAt(s, n, k).1 == html[next..]
  {
    var inner, rest, q := html[after..], html[next..], k + 1;
    Suffix(html, from, q, after);
    ValuedFound(s, from, n, k, name, inner, v, rest, value, start, end);
  }

  method ParseAfterName(html: string, ghost from: nat, name: string, spaceEnd: nat, ghost s: string, ghost n: nat,
      ghost k: nat)
    returns (found: seq<ParsedAttribute>, index: nat)
    requires from <= |html| && s == html[from..] && n <= k <= |s| && name == s[..n] && spaceEnd == from + k
    ensures spaceEnd <= index <= |html| && (spaceEnd < |html| && html[spaceEnd] == '=' ==> spaceEnd < index)
    ensures var (p, rest) := AttributeAt(s, n, k); found == AttributeOf(p, from) && rest == html[index..]
  {
    Suffix(html, from, k, spaceEnd);
    assert k < |s| ==> s[k] == html[spaceEnd];
    if spaceEnd < |html| && html[spaceEnd] == '=' {
      var after: nat := spaceEnd + 1;
      var start, end, next := ParseValue(html, after);
      var value := html[start..end];
      ValuedAt(html, from, s, n, k, name, after, NextValue(html[after..]).0, value, start, end, next);
      found := if name == "" then [] else [ParsedAttribute(LowerAll(name), Some(value), start, end)];
      index := next;
    } else {
      BareFound(s, from, n, k, name);
      found := if name == "" then [] else [ParsedAttribute(LowerAll(name), None, spaceEnd, spaceEnd)];
      index := spaceEnd;
    }
  }

  method ParseAttribute(html: string, from: nat) returns (found: seq<ParsedAttribute>, index: nat)
    requires from <= |html| && BeginsAttribute(html[from..])
    ensures from < index <= |html|
    ensures var (p, rest) := NextPiece(html[from..]); found == AttributeOf(p, from) && rest == html[index..]
  {
    var nameEnd := Skip(NameChar, html, from);
    index := Skip(SpaceChar, html, nameEnd);
    ghost var n, k := nameEnd - from, index - from;
    var name := html[from..nameEnd];
    ghost var s := html[from..];
    NamePositions(html, from, n, nameEnd, k, index);
    assert k == 0 ==> index < |html| && html[index] == '=';
    found, index := ParseAfterName(html, from, name, index, s, n, k);
  }

  // --- start tags ---

  lemma PieceLength(s: string, p: Piece, rest: string)
    requires !AtEnding(s) && NextPiece(s) == (p, rest)
    ensures |PieceText(p, "")| == |s| - |rest|
  {
    PieceLossless(s);
    PieceTextLength(p, rest);
  }

  lemma PieceTextLength(p: Piece, rest: string)
    ensures |PieceText(p, rest)| == |PieceText(p, "")| + |rest|
  {
  }

  /** How far a tag beginning with `s` at `from` has been read: `rest` is left, at `index`. */
  ghost predicate Reading(s: string, from: nat, attributes: seq<ParsedAttribute>, rest: string, index: nat) {
    && AttributesOf(Pieces(s), from) == attributes + AttributesOf(Pieces(rest), index)
    && TagEnding(s) == TagEnding(rest) && AfterTag(s) == AfterTag(rest)
  }

  lemma PiecesStep(s: string, p: Piece, rest: string)
    requires !AtEnding(s) && NextPiece(s) == (p, rest)
    ensures Pieces(s) == [p] + Pieces(rest) && TagEnding(s) == TagEnding(rest) && AfterTag(s) == AfterTag(rest)
  {
  }

  lemma AttributesFirst(p: Piece, ps: seq<Piece>, at: nat, next: nat)
    requires next == at + |PieceText(p, "")|
    ensures AttributesOf([p] + ps, at) == AttributeOf(p, at) + AttributesOf(ps, next)
  {
    assert ([p] + ps)[1..] == ps;
  }

  lemma ReadOne(s: string, from: nat, attributes: seq<ParsedAttribute>, here: string, index: nat, p: Piece,
      rest: string, next: nat)
    requires Reading(s, from, attributes, here, index) && !AtEnding(here) && NextPiece(here) == (p, rest)
    requires next == index + |here| - |rest|
    ensures Reading(s, from, attributes + AttributeOf(p, index), rest, next)
  {
    PieceLength(here, p, rest);
    PiecesStep(here, p, rest);
    ReadFirst(AttributesOf(Pieces(s), from), attributes, Pieces(here), p, Pieces(rest), index, next);
  }

  lemma ReadFirst(all: seq<ParsedAttribute>, attributes: seq<ParsedAttribute>, ps: seq<Piece>, p: Piece,
      qs: seq<Piece>, index: nat, next: nat)
    requires all == attributes + AttributesOf(ps, index) && ps == [p] + qs && next == index + |PieceText(p, "")|
    ensures all == attributes + AttributeOf(p, index) + AttributesOf(qs, next)
  {
    AttributesFirst(p, qs, index, next);
    Joined(attributes, AttributeOf(p, index), AttributesOf(qs, next));
  }

  lemma ReadAll(s: string, from: nat, attributes: seq<ParsedAttribute>, here: string, index: nat)
    requires Reading(s, from, attributes, here, index) && AtEnding(here)
    ensures attributes == AttributesOf(Pieces(s), from) && TagEnding(s) == EndingOf(here)
            && AfterTag(s) == AfterEnding(here)
  {
  }

  lemma HeadOf(html: string, index: nat)
    requires index < |html|
    ensures html[index..] != "" && html[index..][0] == html[index]
    ensures |html[index..]| > 1 <==> index + 1 < |html|
    ensures index + 1 < |html| ==> html[index..][1] == html[index + 1]
  {
  }

  lemma SpacePiece(html: string, index: nat, next: nat)
    requires index < |html| && Space(html[index]) && next == index + Span(SpaceChar, html[index..])
    ensures index < next <= |html| && !AtEnding(html[index..])
    ensures NextPiece(html[index..]) == (Gap(html[index..next]), html[next..])
  {
    HeadOf(html, index);
    Suffix(html, index, next - index, next);
  }

  lemma NameAt(html: string, open: nat, s: string, nameStart: nat, n: nat, nameEnd: nat)
    requires open <= |html| && s == html[open..] && OpensTag(s) && nameStart == open + 1
    requires n == Span(TagNameChar, html[nameStart..]) && nameEnd == nameStart + n
    ensures TagName(s) == html[nameStart..nameEnd] && AfterName(s) == html[nameEnd..] && nameEnd <= |html|
            && |TagName(s)| == n
  {
    Suffix(html, open, 1, nameStart);
    var k := 1 + n;
    Suffix(html, open, k, nameEnd);
    assert s[1..k] == html[nameStart..nameEnd];
  }

  /** What the scanner reads of a tag beginning with `s`, whose name ends at `at`. */
  ghost predicate ReadsTag(s: string, at: nat, name: string, attributes: seq<ParsedAttribute>, rest: string,
      selfClosing: bool) {
    && OpensTag(s) && name == LowerAll(TagName(s)) && ReadsPieces(AfterName(s), at, attributes, rest, selfClosing)
  }

  ghost predicate ReadsPieces(t: string, at: nat, attributes: seq<ParsedAttribute>, rest: string, selfClosing: bool) {
    attributes == AttributesOf(Pieces(t), at) && rest == AfterTag(t) && selfClosing == (TagEnding(t) == SelfClosed)
  }

  /** Reads one start tag, recording where each value sits. */
  method ParseTag(html: string, open: nat)
    returns (name: string, attributes: seq<ParsedAttribute>, end: nat, selfClosing: bool, ghost at: nat)
    requires open <= |html| && OpensTag(html[open..])
    ensures open < end <= |html| && at == open + 1 + |name|
            && ReadsTag(html[open..], at, name, attributes, html[end..], selfClosing)
  {
    var nameStart: nat := open + 1;
    var nameEnd := Skip(TagNameChar, html, nameStart);
    var raw := html[nameStart..nameEnd];
    ghost var s := html[open..];
    ghost var n := nameEnd - nameStart;
    NameAt(html, open, s, nameStart, n, nameEnd);
    name := LowerAll(raw);
    at := nameEnd;
    attributes, end, selfClosing := ParsePieces(html, nameEnd);
  }

  method ParsePieces(html: string, from: nat) returns (attributes: seq<ParsedAttribute>, index: nat, selfClosing: bool)
    requires from <= |html|
    ensures from <= index <= |html| && ReadsPieces(html[from..], from, attributes, html[index..], selfClosing)
  {
    ghost var s := html[from..];
    index, attributes, selfClosing := from, [], false;
    while index < |html| && !(html[index] == '>') && !(html[index] == '/' && index + 1 < |html|
                                                       && html[index + 1] == '>')
      invariant from <= index <= |html| && Reading(s, from, attributes, html[index..], index)
      decreases |html| - index
    {
      HeadOf(html, index);
      ghost var p, rest := NextPiece(html[index..]).0, NextPiece(html[index..]).1;
      var found, next := ParsePiece(html, index);
      ReadOne(s, from, attributes, html[index..], index, p, rest, next);
      attributes, index := attributes + found, next;
    }
    if index < |html| { HeadOf(html, index); }
    ReadAll(s, from, attributes, html[index..], index);
    if index < |html| {
      selfClosing := html[index] == '/';
      var next: nat := index + if selfClosing then 2 else 1;
      Suffix(html, index, if selfClosing then 2 else 1, next);
      index := next;
    }
  }

  /** One turn of the tag loop that does not end it: a run of whitespace, a lone slash or an attribute. */
  method ParsePiece(html: string, index: nat) returns (found: seq<ParsedAttribute>, next: nat)
    requires index < |html| && !AtEnding(html[index..])
    ensures index < next <= |html|
    ensures var (p, rest) := NextPiece(html[index..]); found == AttributeOf(p, index) && rest == html[next..]
  {
    HeadOf(html, index);
    if Space(html[index]) {
      next := Skip(SpaceChar, html, index);
      SpacePiece(html, index, next);
      found := [];
    } else if html[index] == '/' {
      next := index + 1;
      Suffix(html, index, 1, next);
      found := [];
    } else {
      found, next := ParseAttribute(html, index);
    }
  }

  // --- the edits make the token rewrite ---

  lemma Copied(a: string, s: string, edits: seq<Edit>, at: nat, next: nat, to: nat, out: string)
    requires Splices(s, edits, next, to, out) && next == at + |a|
    ensures Splices(a + s, edits, at, to, a + out)
  {
    SpliceSkip(a, s, edits, at, next, to);
  }

  lemma Replaced(v: string, s: string, text: string, edits: seq<Edit>, mine: seq<Edit>, at: nat, end: nat, to: nat,
      out: string)
    requires Splices(s, edits, end, to, out) && end == at + |v| && mine == if text == v then []
             else [Edit(at, end, text)]
    ensures Splices(v + s, mine + edits, at, to, text + out)
  {
    if text == v {
      assert mine + edits == edits;
      SpliceSkip(v, s, edits, at, end, to);
    } else {
      SpliceEdit(v, s, text, edits, at, end, to);
    }
  }

  function CloseText(q: Quoting): string { if q.Quoted? && q.closed then [q.mark] else "" }
  function OpenText(q: Quoting): string { if q.Quoted? then [q.mark] else "" }

  /** A value's text in four parts. */
  lemma ValueParts(v: Value, r: string)
    ensures ValueText(v, r) == v.space + (OpenText(v.quoting) + (v.text + (CloseText(v.quoting) + r)))
  {
    match v.quoting
    case Unquoted => assert CloseText(v.quoting) + r == r && OpenText(v.quoting) + (v.text + r) == v.text + r;
    case Quoted(_, closed) => assert CloseText(v.quoting) + r == CloseMark(v.quoting, r);
  }

  /** A value whose text may be replaced: the edits of the rest go on after it. */
  lemma ValueSplice(v: Value, r: string, text: string, edits: seq<Edit>, mine: seq<Edit>, at: nat, start: nat,
      end: nat, next: nat, to: nat, out: string)
    requires start == at + ValueStart(v) && end == start + |v.text| && next == end + |CloseText(v.quoting)|
    requires Splices(r, edits, next, to, out) && mine == if text == v.text then [] else [Edit(start, end, text)]
    ensures Splices(ValueText(v, r), mine + edits, at, to, ValueText(v.(text := text), out))
  {
    var open, close := OpenText(v.quoting), CloseText(v.quoting);
    var mid := at + |v.space|;
    Copied(close, r, edits, end, next, to, out);
    Replaced(v.text, close + r, text, edits, mine, start, end, to, close + out);
    Copied(open, v.text + (close + r), mine + edits, mid, start, to, text + (close + out));
    Copied(v.space, open + (v.text + (close + r)), mine + edits, at, mid, to, open + (text + (close + out)));
    ValueParts(v, r);
    ValueParts(v.(text := text), out);
  }

  lemma PlainPiece(p: Piece, r: string)
    requires !(p.Attribute? && p.value.Some?)
    ensures PieceText(p, r) == PieceText(p, "") + r
  {
    if p.Attribute? { Assoc(p.name, p.space, r); assert p.space + "" == p.space; }
  }

  lemma EditsFirst(x: ParsedAttribute, xs: seq<ParsedAttribute>, prefix: string)
    ensures AttributeEdits([x] + xs, prefix) == EditOf(x, prefix) + AttributeEdits(xs, prefix)
  {
    assert ([x] + xs)[1..] == xs;
  }

  lemma AttributeEdit(p: Piece, prefix: string, at: nat, start: nat, end: nat, text: string)
    requires p.Attribute? && p.value.Some? && text == NewValue(p.name, p.value.value.text, prefix)
    requires start == at + |p.name| + |p.space| + 1 + ValueStart(p.value.value) && end == start + |p.value.value.text|
    ensures AttributeEdits(AttributeOf(p, at), prefix) == if text == p.value.value.text then []
            else [Edit(start, end, text)]
  {
    if p.name != "" {
      var x := ParsedAttribute(LowerAll(p.name), Some(p.value.value.text), start, end);
      assert AttributeOf(p, at) == [x] && [x] + [] == [x];
      EditsFirst(x, [], prefix);
      assert EditOf(x, prefix) + [] == EditOf(x, prefix);
    }
  }

  lemma ValuedLength(p: Piece, from: nat, at: nat)
    requires p.Attribute? && p.value.Some? && from == at + |p.name| + |p.space| + 1
    ensures at + |PieceText(p, "")| == from + ValueStart(p.value.value) + |p.value.value.text|
            + |CloseText(p.value.value.quoting)|
  {
    ValueParts(p.value.value, "");
  }

  lemma ValuedSplice(p: Piece, r: string, prefix: string, edits: seq<Edit>, mine: seq<Edit>, at: nat, next: nat,
      to: nat, out: string)
    requires p.Attribute? && p.value.Some? && next == at + |PieceText(p, "")| && Splices(r, edits, next, to, out)
    requires mine == AttributeEdits(AttributeOf(p, at), prefix)
    ensures Splices(PieceText(p, r), mine + edits, at, to, PieceText(MapPiece(p, prefix), out))
  {
    var v := p.value.value;
    var text := NewValue(p.name, v.text, prefix);
    var after := at + |p.name|;
    var equals := after + |p.space|;
    var from := equals + 1;
    var start := from + ValueStart(v);
    var end := start + |v.text|;
    ValuedLength(p, from, at);
    AttributeEdit(p, prefix, at, start, end, text);
    ValueSplice(v, r, text, edits, mine, from, start, end, next, to, out);
    ValuedCopies(p, v.(text := text), r, mine + edits, at, after, equals, from, to, out);
  }

  lemma ValuedCopies(p: Piece, w: Value, r: string, edits: seq<Edit>, at: nat, after: nat, equals: nat, from: nat,
      to: nat, out: string)
    requires p.Attribute? && p.value.Some? && after == at + |p.name| && equals == after + |p.space|
             && from == equals + 1
    requires Splices(ValueText(p.value.value, r), edits, from, to, ValueText(w, out))
    ensures Splices(PieceText(p, r), edits, at, to, PieceText(p.(value := Some(w)), out))
  {
    var inner, done := ValueText(p.value.value, r), ValueText(w, out);
    Copied("=", inner, edits, equals, from, to, done);
    Copied(p.space, "=" + inner, edits, after, equals, to, "=" + done);
    Copied(p.name, p.space + ("=" + inner), edits, at, after, to, p.space + ("=" + done));
  }

  lemma PieceSplice(p: Piece, r: string, prefix: string, edits: seq<Edit>, mine: seq<Edit>, at: nat, next: nat,
      to: nat, out: string)
    requires next == at + |PieceText(p, "")| && Splices(r, edits, next, to, out)
             && mine == AttributeEdits(AttributeOf(p, at), prefix)
    ensures Splices(PieceText(p, r), mine + edits, at, to, PieceText(MapPiece(p, prefix), out))
  {
    if p.Attribute? && p.value.Some? {
      ValuedSplice(p, r, prefix, edits, mine, at, next, to, out);
    } else {
      NoEdits(p, at, prefix);
      assert [] + edits == edits;
      PlainPiece(p, r);
      PlainPiece(p, out);
      Copied(PieceText(p, ""), r, edits, at, next, to, out);
    }
  }

  lemma NoEdits(p: Piece, at: nat, prefix: string)
    requires !(p.Attribute? && p.value.Some?)
    ensures AttributeEdits(AttributeOf(p, at), prefix) == []
  {
    if p.Attribute? && p.name != "" {
      var x := AttributeOf(p, at)[0];
      assert [x] + [] == [x];
      EditsFirst(x, [], prefix);
    }
  }

  lemma {:induction false} AttributeEditsConcat(a: seq<ParsedAttribute>, b: seq<ParsedAttribute>, prefix: string)
    ensures AttributeEdits(a + b, prefix) == AttributeEdits(a, prefix) + AttributeEdits(b, prefix)
  {
    if a == [] {
      assert a + b == b;
    } else {
      var x, xs := a[0], a[1..];
      AttributeEditsConcat(xs, b, prefix);
      Uncons(a, x, xs);
      Joined([x], xs, b);
      EditsFirst(x, xs, prefix);
      EditsFirst(x, xs + b, prefix);
      Joined(EditOf(x, prefix), AttributeEdits(xs, prefix), AttributeEdits(b, prefix));
    }
  }

  lemma Uncons<T>(s: seq<T>, x: T, xs: seq<T>)
    requires s != [] && x == s[0] && xs == s[1..]
    ensures s == [x] + xs
  {
  }

  lemma Joined<T>(a: seq<T>, b: seq<T>, c: seq<T>)
    ensures a + b + c == a + (b + c)
  {
  }

  lemma {:induction false} PiecesLength(ps: seq<Piece>, r: string)
    ensures |PiecesText(ps, r)| == |PiecesText(ps, "")| + |r|
  {
    if ps != [] {
      PiecesLength(ps[1..], r);
      PieceTextLength(ps[0], PiecesText(ps[1..], r));
      PieceTextLength(ps[0], PiecesText(ps[1..], ""));
    }
  }

  lemma {:induction false} PiecesSplice(ps: seq<Piece>, r: string, prefix: string, edits: seq<Edit>, mine: seq<Edit>,
      at: nat, next: nat, to: nat, out: string)
    requires next == at + |PiecesText(ps, "")| && Splices(r, edits, next, to, out)
             && mine == AttributeEdits(AttributesOf(ps, at), prefix)
    ensures Splices(PiecesText(ps, r), mine + edits, at, to, PiecesText(MapPieces(ps, prefix), out))
  {
    if ps == [] {
      assert mine + edits == edits;
    } else {
      var p, qs := ps[0], ps[1..];
      assert ps == [p] + qs;
      var mid := at + |PieceText(p, "")|;
      PieceTextLength(p, PiecesText(qs, ""));
      PiecesFirst(p, qs, "");
      var rest := AttributeEdits(AttributesOf(qs, mid), prefix);
      PiecesSplice(qs, r, prefix, edits, rest, mid, next, to, out);
      PiecesStepSplice(p, qs, r, prefix, edits, mine, rest, at, mid, to, out);
    }
  }

  lemma MapPiecesFirst(p: Piece, qs: seq<Piece>, prefix: string)
    ensures MapPieces([p] + qs, prefix) == [MapPiece(p, prefix)] + MapPieces(qs, prefix)
  {
    assert ([p] + qs)[1..] == qs;
  }

  lemma PiecesStepSplice(p: Piece, qs: seq<Piece>, r: string, prefix: string, edits: seq<Edit>, mine: seq<Edit>,
      rest: seq<Edit>,
                         at: nat, mid: nat, to: nat, out: string)
    requires mid == at + |PieceText(p, "")| && mine == AttributeEdits(AttributesOf([p] + qs, at), prefix)
    requires rest == AttributeEdits(AttributesOf(qs, mid), prefix)
    requires Splices(PiecesText(qs, r), rest + edits, mid, to, PiecesText(MapPieces(qs, prefix), out))
    ensures Splices(PiecesText([p] + qs, r), mine + edits, at, to, PiecesText(MapPieces([p] + qs, prefix), out))
  {
    var first := AttributeEdits(AttributeOf(p, at), prefix);
    AttributesFirst(p, qs, at, mid);
    AttributeEditsConcat(AttributeOf(p, at), AttributesOf(qs, mid), prefix);
    PieceSplice(p, PiecesText(qs, r), prefix, rest + edits, first, at, mid, to, PiecesText(MapPieces(qs, prefix), out));
    Joined(first, rest, edits);
    PiecesFirst(p, qs, r);
    MapPiecesFirst(p, qs, prefix);
    PiecesFirst(MapPiece(p, prefix), MapPieces(qs, prefix), out);
  }

  lemma EndingParts(e: Ending, r: string)
    ensures EndingText(e, r) == EndingText(e, "") + r
  {
  }

  lemma TagSplice(name: string, ps: seq<Piece>, e: Ending, r: string, prefix: string, edits: seq<Edit>, mine: seq<Edit>,
                  at: nat, named: nat, from: nat, ended: nat, next: nat, to: nat, out: string)
    requires named == at + 1 && from == named + |name| && ended == from + |PiecesText(ps, "")|
             && next == ended + |EndingText(e, "")|
    requires Splices(r, edits, next, to, out) && mine == AttributeEdits(AttributesOf(ps, from), prefix)
    ensures Splices(TokenText(Tag(name, ps, e), r), mine + edits, at, to,
                    TokenText(Tag(name, MapPieces(ps, prefix), e), out))
  {
    InnerSplice(ps, e, r, prefix, edits, mine, from, ended, next, to, out);
    NameCopies(name, PiecesText(ps, EndingText(e, r)), mine + edits, at, named, from, to,
               PiecesText(MapPieces(ps, prefix), EndingText(e, out)));
  }

  lemma InnerSplice(ps: seq<Piece>, e: Ending, r: string, prefix: string, edits: seq<Edit>, mine: seq<Edit>,
                    from: nat, ended: nat, next: nat, to: nat, out: string)
    requires ended == from + |PiecesText(ps, "")| && next == ended + |EndingText(e, "")|
    requires Splices(r, edits, next, to, out) && mine == AttributeEdits(AttributesOf(ps, from), prefix)
    ensures Splices(PiecesText(ps, EndingText(e, r)), mine + edits, from, to,
                    PiecesText(MapPieces(ps, prefix), EndingText(e, out)))
  {
    EndingSplice(e, r, edits, ended, next, to, out);
    PiecesSplice(ps, EndingText(e, r), prefix, edits, mine, from, ended, to, EndingText(e, out));
  }

  lemma EndingSplice(e: Ending, r: string, edits: seq<Edit>, ended: nat, next: nat, to: nat, out: string)
    requires next == ended + |EndingText(e, "")| && Splices(r, edits, next, to, out)
    ensures Splices(EndingText(e, r), edits, ended, to, EndingText(e, out))
  {
    EndingParts(e, r);
    EndingParts(e, out);
    Copied(EndingText(e, ""), r, edits, ended, next, to, out);
  }

  lemma NameCopies(name: string, inner: string, edits: seq<Edit>, at: nat, named: nat, from: nat, to: nat, done: string)
    requires named == at + 1 && from == named + |name| && Splices(inner, edits, from, to, done)
    ensures Splices("<" + (name + inner), edits, at, to, "<" + (name + done))
  {
    Copied(name, inner, edits, named, from, to, done);
    Copied("<", name + inner, edits, at, named, to, name + done);
  }

  lemma TagLength(name: string, ps: seq<Piece>, e: Ending)
    ensures |TokenText(Tag(name, ps, e), "")| == 1 + |name| + |PiecesText(ps, "")| + |EndingText(e, "")|
  {
    PiecesLength(ps, EndingText(e, ""));
  }

  lemma TokenSplice(t: Token, r: string, prefix: string, edits: seq<Edit>, mine: seq<Edit>, at: nat, next: nat,
      to: nat, out: string)
    requires next == at + |TokenText(t, "")| && Splices(r, edits, next, to, out) && mine == TokenEdits(t, at, prefix)
    ensures Splices(TokenText(t, r), mine + edits, at, to, TokenText(MapToken(t, prefix), out))
  {
    if t.Tag? {
      var named := at + 1;
      var from := NameEndAt(at, t.name);
      var ended := from + |PiecesText(t.pieces, "")|;
      TagLength(t.name, t.pieces, t.ending);
      TagSplice(t.name, t.pieces, t.ending, r, prefix, edits, mine, at, named, from, ended, next, to, out);
    } else if t.RawText? && t.name == "style" {
      StyleSplice(t.name, t.text, r, prefix, edits, mine, at, next, to, out);
    } else {
      PlainSplice(t, r, prefix, edits, mine, at, next, to, out);
    }
  }

  lemma StyleSplice(name: string, text: string, r: string, prefix: string, edits: seq<Edit>, mine: seq<Edit>, at: nat,
      next: nat, to: nat, out: string)
    requires name == "style" && next == at + |text| && Splices(r, edits, next, to, out)
    requires mine == StyleEdit(text, at, prefix)
    ensures var t := RawText(name, text);
            Splices(TokenText(t, r), mine + edits, at, to, TokenText(MapToken(t, prefix), out))
  {
    Replaced(text, r, Css.Rewrite(text, prefix), edits, mine, at, next, to, out);
  }

  lemma PlainSplice(t: Token, r: string, prefix: string, edits: seq<Edit>, mine: seq<Edit>, at: nat, next: nat,
      to: nat, out: string)
    requires !t.Tag? && MapToken(t, prefix) == t && mine == []
    requires next == at + |TokenText(t, "")| && Splices(r, edits, next, to, out)
    ensures Splices(TokenText(t, r), mine + edits, at, to, TokenText(t, out))
  {
    assert mine + edits == edits;
    PlainToken(t, r);
    PlainToken(t, out);
    Copied(TokenText(t, ""), r, edits, at, next, to, out);
  }

  lemma PlainToken(t: Token, r: string)
    requires !t.Tag?
    ensures TokenText(t, r) == TokenText(t, "") + r
  {
  }

  /** Making the edits of some tokens in their text gives the text of the rewritten tokens. */
  lemma {:induction false} TokensSplice(ts: seq<Token>, prefix: string, at: nat, to: nat)
    requires to == at + |Text(ts)|
    ensures Splices(Text(ts), EditsOf(ts, at, prefix), at, to, Text(MapTokens(ts, prefix)))
  {
    if ts != [] {
      var next := at + |TokenText(ts[0], "")|;
      TokenLength(ts[0], Text(ts[1..]));
      TokensSplice(ts[1..], prefix, next, to);
      TokenSplice(ts[0], Text(ts[1..]), prefix, EditsOf(ts[1..], next, prefix), TokenEdits(ts[0], at, prefix), at,
                  next, to,
                  Text(MapTokens(ts[1..], prefix)));
      assert ts == [ts[0]] + ts[1..];
      HtmlRescan.MapTokensFirst(ts[0], ts[1..], prefix);
    }
  }

  lemma TokenLength(t: Token, r: string)
    ensures |TokenText(t, r)| == |TokenText(t, "")| + |r|
  {
    if t.Tag? {
      PiecesLength(t.pieces, EndingText(t.ending, r));
      PiecesLength(t.pieces, EndingText(t.ending, ""));
    } else {
      PlainToken(t, r);
    }
  }

  /** The collected edits of a document are in order, disjoint and in bounds, and make its rewrite. */
  lemma EditsRewrite(body: string, prefix: string)
    ensures InOrder(EditsOf(Scan(body), 0, prefix), 0, |body|)
    ensures Splice(body, EditsOf(Scan(body), 0, prefix), 0) == Rewrite(body, prefix)
  {
    ScanIsLossless(body);
    TokensSplice(Scan(body), prefix, 0, |body|);
  }

  // --- the scanner ---

  function EditsFrom(s: string, at: nat, prefix: string): seq<Edit> { EditsOf(Scan(s), at, prefix) }

  lemma EditsOfFirst(t: Token, ts: seq<Token>, at: nat, next: nat, prefix: string)
    requires next == TokenEnd(t, at)
    ensures EditsOf([t] + ts, at, prefix) == TokenEdits(t, at, prefix) + EditsOf(ts, next, prefix)
  {
    var all, mine, others := [t] + ts, TokenEdits(t, at, prefix), EditsOf(ts, next, prefix);
    assert all[0] == t && all[1..] == ts;
    assert EditsOf(all, at, prefix) == mine + others;
  }

  /** One token of the scan, and its edits before those of the rest. */
  lemma OneStep(s: string, at: nat, t: Token, r: string, next: nat, prefix: string)
    requires s != "" && Step(s) == ([t], r) && next == at + |s| - |r|
    ensures EditsFrom(s, at, prefix) == TokenEdits(t, at, prefix) + EditsFrom(r, next, prefix)
  {
    ScanIsLossless(r);
    StepLossless(s, Scan(r));
    TextFirst(t, Scan(r));
    TokenLength(t, r);
    EditsOfFirst(t, Scan(r), at, next, prefix);
  }

  lemma ScanSteps(s: string, ts: seq<Token>, r: string)
    requires s != "" && Step(s) == (ts, r)
    ensures Scan(s) == ts + Scan(r) && Text(ts + Scan(r)) == s && Text(Scan(r)) == r
  {
    ScanIsLossless(r);
    StepLossless(s, Scan(r));
  }

  lemma TwoEdits(all: seq<Token>, t: Token, rest: seq<Token>, u: Token, ts: seq<Token>, at: nat, mid: nat, next: nat,
      prefix: string)
    requires all == [t] + rest && rest == [u] + ts && mid == at + |TokenText(t, "")| && next == mid + |TokenText(u, "")|
    ensures EditsOf(all, at, prefix) == TokenEdits(t, at, prefix)
            + (TokenEdits(u, mid, prefix) + EditsOf(ts, next, prefix))
  {
    EditsOfFirst(t, rest, at, mid, prefix);
    EditsOfFirst(u, ts, mid, next, prefix);
  }

  lemma Pair<T>(t: T, u: T, ts: seq<T>)
    ensures [t, u] + ts == [t] + ([u] + ts)
  {
  }

  lemma TwoLengths(t: Token, u: Token, ts: seq<Token>)
    ensures |Text([t, u] + ts)| == |TokenText(t, "")| + |TokenText(u, "")| + |Text(ts)|
  {
    TextTwo(t, u, ts);
    TokenLength(t, TokenText(u, Text(ts)));
    TokenLength(u, Text(ts));
  }

  lemma TwoSteps(s: string, at: nat, t: Token, u: Token, r: string, mid: nat, next: nat, prefix: string)
    requires s != "" && Step(s) == ([t, u], r) && next == at + |s| - |r| && mid == at + |TokenText(t, "")|
    ensures EditsFrom(s, at, prefix) == TokenEdits(t, at, prefix)
            + (TokenEdits(u, mid, prefix) + EditsFrom(r, next, prefix))
  {
    ScanSteps(s, [t, u], r);
    TwoLengths(t, u, Scan(r));
    Pair(t, u, Scan(r));
    TwoEdits(Scan(s), t, [u] + Scan(r), u, Scan(r), at, mid, next, prefix);
  }

  /** The first `<` ends the run of text before it. */
  lemma {:induction false} FindLess(s: string)
    ensures Find(s, "<") == Span(Not('<'), s)
  {
    if s != "" {
      LessBegins(s);
      if s[0] != '<' { FindLess(s[1..]); }
    }
  }

  lemma LessBegins(s: string)
    requires s != ""
    ensures Begins(s, "<") <==> s[0] == '<'
  {
    assert LowerAll(s[..1])[0] == Lower(s[0]);
    if s[0] == '<' { assert LowerAll(s[..1]) == "<"; }
  }

  lemma RunStep(body: string, index: nat, open: nat, prefix: string)
    requires index < open <= |body| && open == index + Find(body[index..], "<")
    ensures EditsFrom(body[index..], index, prefix) == EditsFrom(body[open..], open, prefix)
  {
    var s := body[index..];
    FindLess(s);
    var n := open - index;
    Suffix(body, index, n, open);
    OneStep(s, index, Run(s[..n]), body[open..], open, prefix);
    assert [] + EditsFrom(body[open..], open, prefix) == EditsFrom(body[open..], open, prefix);
  }

  /** `open + Through(...)` as the scanner computes it. */
  lemma ThroughIs(body: string, open: nat, s: string, from: nat, start: nat, word: string, next: nat)
    requires open <= |body| && s == body[open..] && from <= |s| && start == open + from && word != ""
    requires next == var close := IndexOf(body, word, start); if close == -1 then |body| else close + |word|
    ensures next == open + Through(s, from, word) && next <= |body| && s[next - open..] == body[next..]
  {
    Suffix(body, open, from, start);
    var k := next - open;
    assert next <= |body| by { assert s[from..] == body[start..]; }
    Suffix(body, open, k, next);
  }

  method EditAttributes(attributes: seq<ParsedAttribute>, prefix: string) returns (edits: seq<Edit>)
    ensures edits == AttributeEdits(attributes, prefix)
  {
    edits := [];
    var i := 0;
    while i < |attributes|
      invariant 0 <= i <= |attributes|
      invariant edits + AttributeEdits(attributes[i..], prefix) == AttributeEdits(attributes, prefix)
    {
      var attribute := attributes[i];
      var mine := EditAttribute(attribute, prefix);
      ghost var rest := attributes[i + 1..];
      Uncons(attributes[i..], attribute, rest);
      EditsFirst(attribute, rest, prefix);
      Joined(edits, mine, AttributeEdits(rest, prefix));
      edits := edits + mine;
      i := i + 1;
    }
    assert edits + [] == edits;
  }

  method EditAttribute(attribute: ParsedAttribute, prefix: string) returns (edits: seq<Edit>)
    ensures edits == EditOf(attribute, prefix)
  {
    if attribute.value.None? { return []; }
    var rewritten := RewriteAttribute(attribute.name, attribute.value.value, prefix);
    if rewritten.Some? && rewritten.value != attribute.value.value {
      return [Edit(attribute.start, attribute.end, rewritten.value)];
    }
    edits := [];
  }

  lemma TagTurn(s: string, open: nat, name: string, attributes: seq<ParsedAttribute>, at: nat, rest: string, end: nat,
      selfClosing: bool, prefix: string)
    requires !Begins(s, "<!--") && !OpensMarkup(s) && ReadsTag(s, at, name, attributes, rest, selfClosing)
             && at == open + 1 + |name|
    requires end == open + |s| - |rest| && !(!selfClosing && name in RAW_TEXT)
    ensures EditsFrom(s, open, prefix) == AttributeEdits(attributes, prefix) + EditsFrom(rest, end, prefix)
  {
    var raw, ps, e := TagName(s), Pieces(AfterName(s)), TagEnding(AfterName(s));
    HtmlRescan.StepOfTag(s, raw, ps, e, rest);
    TagEdits(raw, ps, e, open, at, attributes, prefix);
    Turn(s, open, Tag(raw, ps, e), AttributeEdits(attributes, prefix), rest, end, prefix);
  }

  lemma TagEdits(raw: string, ps: seq<Piece>, e: Ending, open: nat, at: nat, attributes: seq<ParsedAttribute>,
      prefix: string)
    requires at == NameEndAt(open, raw) && attributes == AttributesOf(ps, at)
    ensures TokenEdits(Tag(raw, ps, e), open, prefix) == AttributeEdits(attributes, prefix)
  {
  }

  lemma Turn(s: string, open: nat, t: Token, mine: seq<Edit>, r: string, next: nat, prefix: string)
    requires s != "" && Step(s) == ([t], r) && next == open + |s| - |r| && TokenEdits(t, open, prefix) == mine
    ensures EditsFrom(s, open, prefix) == mine + EditsFrom(r, next, prefix)
  {
    OneStep(s, open, t, r, next, prefix);
  }

  lemma DoubleTurn(s: string, open: nat, t: Token, mine: seq<Edit>, u: Token, r: string, mid: nat, next: nat,
      prefix: string)
    requires s != "" && Step(s) == ([t, u], r) && next == open + |s| - |r| && mid == open + |TokenText(t, "")|
    requires TokenEdits(t, open, prefix) == mine
    ensures EditsFrom(s, open, prefix) == mine + (TokenEdits(u, mid, prefix) + EditsFrom(r, next, prefix))
  {
    TwoSteps(s, open, t, u, r, mid, next, prefix);
  }

  lemma RawTurn(s: string, open: nat, name: string, attributes: seq<ParsedAttribute>, at: nat, rest: string, end: nat,
      n: nat, stop: nat, prefix: string)
    requires !Begins(s, "<!--") && !OpensMarkup(s) && ReadsTag(s, at, name, attributes, rest, false)
             && at == open + 1 + |name|
    requires end == open + |s| - |rest| && name in RAW_TEXT && n == Find(rest, "</" + name) && stop == end + n
    ensures EditsFrom(s, open, prefix)
         == AttributeEdits(attributes, prefix) + (TokenEdits(RawText(name, rest[..n]), end, prefix)
                                                  + EditsFrom(rest[n..], stop, prefix))
  {
    var raw, ps, e := TagName(s), Pieces(AfterName(s)), TagEnding(AfterName(s));
    HtmlRescan.StepOfTag(s, raw, ps, e, rest);
    HtmlRescan.TagStepLength(s);
    TagEdits(raw, ps, e, open, at, attributes, prefix);
    DoubleTurn(s, open, Tag(raw, ps, e), AttributeEdits(attributes, prefix), RawText(name, rest[..n]), rest[n..], end,
               stop, prefix);
  }

  /** One turn of the scan at a `<`. */
  method ScanTurn(body: string, open: nat, prefix: string) returns (edits: seq<Edit>, index: nat)
    requires open < |body| && body[open] == '<'
    ensures open < index <= |body|
    ensures EditsFrom(body[open..], open, prefix) == edits + EditsFrom(body[index..], index, prefix)
  {
    HeadOf(body, open);
    edits := [];
    if Begins(body[open..], "<!--") {
      index := SkipComment(body, open, prefix);
    } else if open + 1 < |body| && body[open + 1] == '!' {
      index := SkipDeclaration(body, open, prefix);
    } else if !(open + 1 < |body| && Letter(body[open + 1])) {
      index := open + 1;
      Suffix(body, open, 1, index);
      Turn(body[open..], open, LessThan, [], body[index..], index, prefix);
    } else {
      edits, index := TagTurnAt(body, open, prefix);
    }
  }

  method SkipComment(body: string, open: nat, ghost prefix: string) returns (index: nat)
    requires open < |body| && body[open] == '<' && Begins(body[open..], "<!--")
    ensures open < index <= |body| && EditsFrom(body[open..], open, prefix)
            == [] + EditsFrom(body[index..], index, prefix)
  {
    ghost var s := body[open..];
    HeadOf(body, open);
    var start := open + 4;
    var close := IndexOf(body, "-->", start);
    index := if close == -1 then |body| else close + 3;
    ThroughIs(body, open, s, 4, start, "-->", index);
    ghost var n := index - open;
    Turn(s, open, Comment(s[..n]), [], body[index..], index, prefix);
  }

  method SkipDeclaration(body: string, open: nat, ghost prefix: string) returns (index: nat)
    requires open < |body| && body[open] == '<' && !Begins(body[open..], "<!--") && OpensMarkup(body[open..])
    ensures open < index <= |body| && EditsFrom(body[open..], open, prefix)
            == [] + EditsFrom(body[index..], index, prefix)
  {
    ghost var s := body[open..];
    HeadOf(body, open);
    var start := open + 1;
    var close := IndexOf(body, ">", start);
    index := if close == -1 then |body| else close + 1;
    ThroughIs(body, open, s, 1, start, ">", index);
    ghost var n := index - open;
    Turn(s, open, Declaration(s[..n]), [], body[index..], index, prefix);
  }

  method TagTurnAt(body: string, open: nat, prefix: string) returns (edits: seq<Edit>, index: nat)
    requires open < |body| && OpensTag(body[open..]) && !Begins(body[open..], "<!--") && !OpensMarkup(body[open..])
    ensures open < index <= |body|
    ensures EditsFrom(body[open..], open, prefix) == edits + EditsFrom(body[index..], index, prefix)
  {
    var name, attributes, end, selfClosing, at := ParseTag(body, open);
    ghost var s, rest := body[open..], body[end..];
    edits := EditAttributes(attributes, prefix);
    if selfClosing || name !in RAW_TEXT {
      index := end;
      TagTurn(s, open, name, attributes, at, rest, end, selfClosing, prefix);
      return;
    }
    var mine;
    ghost var n;
    mine, index, n := RawBody(body, end, name, prefix);
    RawTurn(s, open, name, attributes, at, rest, end, n, index, prefix);
    Joined(edits, mine, EditsFrom(body[index..], index, prefix));
    edits := edits + mine;
  }

  /** The body of a raw-text element that was just opened: only a stylesheet is edited. */
  method RawBody(body: string, end: nat, name: string, prefix: string)
      returns (edits: seq<Edit>, stop: nat, ghost n: nat)
    requires end <= |body| && name in RAW_TEXT
    ensures n == Find(body[end..], "</" + name) && stop == end + n && stop <= |body|
    ensures body[end..][..n] == body[end..stop] && body[end..][n..] == body[stop..]
    ensures edits == TokenEdits(RawText(name, body[end..stop]), end, prefix)
  {
    var close := IndexOf(body, "</" + name, end);
    stop := if close == -1 then |body| else close;
    n := stop - end;
    StopIs(body[end..], "</" + name, n, close, end, |body|);
    Suffix(body, end, n, stop);
    edits := EditBody(name, body[end..stop], end, prefix);
  }

  method EditBody(name: string, text: string, at: nat, prefix: string) returns (edits: seq<Edit>)
    ensures edits == TokenEdits(RawText(name, text), at, prefix)
  {
    edits := [];
    if name == "style" {
      var rewritten := Css.Rewrite(text, prefix);
      if rewritten != text { edits := [Edit(at, at + |text|, rewritten)]; }
    }
  }

  /** A word that is found nowhere leaves the whole text before it. */
  lemma StopIs(rest: string, word: string, n: nat, close: int, end: nat, size: nat)
    requires word != "" && size == end + |rest|
    requires close == (var k := end + Find(rest, word); if k + |word| <= size then k else -1)
    requires n == (if close == -1 then |rest| else close - end)
    ensures n == Find(rest, word)
  {
    HtmlRescan.FindFinds(rest, word);
    var k := Find(rest, word);
    if k < |rest| { assert Begins(rest[k..], word); }
  }

  /** The whole scan: every edit, in place. */
  method CollectEdits(body: string, prefix: string) returns (edits: seq<Edit>)
    ensures edits == EditsOf(Scan(body), 0, prefix)
  {
    edits := [];
    var index: nat := 0;
    assert body[0..] == body;
    while index < |body|
      invariant index <= |body| && edits + EditsFrom(body[index..], index, prefix) == EditsFrom(body, 0, prefix)
      decreases |body| - index
    {
      var open := IndexOf(body, "<", index);
      NextLess(body, index, open);
      if open == -1 {
        RunStep(body, index, |body|, prefix);
        index := |body|;
      } else {
        if index < open { RunStep(body, index, open, prefix); }
        var mine, next := ScanTurn(body, open, prefix);
        Joined(edits, mine, EditsFrom(body[next..], next, prefix));
        edits := edits + mine;
        index := next;
      }
    }
    assert body[index..] == "";
    assert edits + [] == edits;
  }

  lemma NextLess(body: string, index: nat, open: int)
    requires index < |body| && open == IndexOf(body, "<", index)
    ensures open == -1 ==> index + Find(body[index..], "<") == |body|
    ensures open != -1 ==> open == index + Find(body[index..], "<") && open < |body| && body[open] == '<'
  {
    var s := body[index..];
    FindLess(s);
    var n := Span(Not('<'), s);
    assert n < |s| ==> s[n] == body[index + n];
  }

  /** Keeps a document's absolute paths under the prefix: the text of its tokens, rewritten. */
  method RewriteHtmlAbsolutePaths(body: string, prefix: string) returns (out: string)
    ensures out == Rewrite(body, prefix)
    ensures MountPoint(prefix) ==> Moves(body, out, prefix)
  {
    if MountPoint(prefix) { DocumentsFollow(body, prefix); }
    var edits := CollectEdits(body, prefix);
    EditsRewrite(body, prefix);
    out := ApplyEdits(body, edits);
  }
}
