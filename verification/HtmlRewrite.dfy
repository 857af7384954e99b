/**
 Moving a document under a prefix: what the rewrite does to each token, and the proof that scanning the
 result finds the same tokens with exactly those changes.
 */
module HtmlRewrite {
  import opened Wrappers
  import opened Chars
  import opened Html
  import Css

  const URL_ATTRIBUTES := {"src", "href", "action", "poster", "formaction", "data", "background"}
  const SRCSET_ATTRIBUTES := {"srcset", "imagesrcset"}

  /** A prefix without quotes, whitespace or angle brackets. */
  const PrefixChar: char -> bool := (c: char) => !Space(c) && !QuoteMark(c) && c != '<' && c != '>'
  predicate Plain(prefix: string) { All(PrefixChar, prefix) }

  function RewriteUrl(value: string, prefix: string): string {
    if value != "" && value[0] == '/' && !(|value| > 1 && value[1] == '/') then prefix + value else value
  }

  /** The leading whitespace of a root-relative `srcset` candidate. */
  function Candidate(s: string): Option<nat> {
    var k := Span(SpaceChar, s);
    if k < |s| && s[k] == '/' then Some(k) else None
  }

  /** Every candidate of the list that begins with a slash gets the prefix. */
  function RewriteSrcset(s: string, prefix: string): string
    decreases |s|, 1
  {
    var c := Candidate(s);
    if c.Some? then s[..c.value] + (prefix + SrcsetTail(s[c.value..], prefix)) else SrcsetTail(s, prefix)
  }

  function SrcsetTail(s: string, prefix: string): string
    decreases |s|, 0
  {
    if s == "" then ""
    else if s[0] == ',' then [','] + RewriteSrcset(s[1..], prefix)
    else [s[0]] + SrcsetTail(s[1..], prefix)
  }

  /** The new text of an attribute's value, or none for attributes left alone. */
  function RewriteAttribute(name: string, value: string, prefix: string): Option<string> {
    if name in URL_ATTRIBUTES then Some(RewriteUrl(value, prefix))
    else if name in SRCSET_ATTRIBUTES then Some(RewriteSrcset(value, prefix))
    else if name == "style" then Some(Css.Rewrite(value, prefix))
    else None
  }

  function NewValue(name: string, value: string, prefix: string): string {
    var r := RewriteAttribute(LowerAll(name), value, prefix);
    if r.None? then value else r.value
  }

  function MapPiece(p: Piece, prefix: string): Piece {
    if p.Attribute? && p.value.Some? then
      p.(value := Some(p.value.value.(text := NewValue(p.name, p.value.value.text, prefix))))
    else p
  }

  function MapPieces(ps: seq<Piece>, prefix: string): seq<Piece> {
    if ps == [] then [] else [MapPiece(ps[0], prefix)] + MapPieces(ps[1..], prefix)
  }

  function MapToken(t: Token, prefix: string): Token {
    match t
    case Tag(name, pieces, ending) => Tag(name, MapPieces(pieces, prefix), ending)
    case RawText(name, text) => if name == "style" then RawText(name, Css.Rewrite(text, prefix)) else t
    case _ => t
  }

  function MapTokens(ts: seq<Token>, prefix: string): seq<Token> {
    if ts == [] then [] else [MapToken(ts[0], prefix)] + MapTokens(ts[1..], prefix)
  }

  function Rewrite(s: string, prefix: string): string { Text(MapTokens(Scan(s), prefix)) }

  // --- what a rewritten value looks like ---

  /** Both empty, or beginning with the same character up to case. */
  predicate Alike(a: string, b: string) { (a == "" <==> b == "") && (a != "" ==> Lower(a[0]) == Lower(b[0])) }

  /** A value of its quoting: no character that would end it. */
  predicate Fits(q: Quoting, text: string) {
    match q
    case Unquoted => All(UnquotedChar, text) && (text != "" ==> !QuoteMark(text[0]))
    case Quoted(mark, _) => QuoteMark(mark) && All(Not(mark), text)
  }

  lemma {:induction false} SrcsetAdds(ok: char -> bool, s: string, prefix: string)
    requires All(ok, s) && All(ok, prefix)
    ensures All(ok, RewriteSrcset(s, prefix))
    decreases |s|, 1
  {
    var c := Candidate(s);
    if c.Some? {
      TailAdds(ok, s[c.value..], prefix);
      Css.AllConcat(ok, prefix, SrcsetTail(s[c.value..], prefix));
      Css.AllConcat(ok, s[..c.value], prefix + SrcsetTail(s[c.value..], prefix));
    } else {
      TailAdds(ok, s, prefix);
    }
  }

  lemma {:induction false} TailAdds(ok: char -> bool, s: string, prefix: string)
    requires All(ok, s) && All(ok, prefix)
    ensures All(ok, SrcsetTail(s, prefix))
    decreases |s|, 0
  {
    if s != "" {
      if s[0] == ',' { SrcsetAdds(ok, s[1..], prefix); } else { TailAdds(ok, s[1..], prefix); }
    }
  }

  /**
   The rewrite of an attribute adds only the prefix and letters of CSS, so nothing a value of that quoting may
   not hold.
   */
  lemma NewValueAdds(ok: char -> bool, name: string, value: string, prefix: string)
    requires All(ok, value) && All(ok, prefix) && All(ok, "url(") && All(ok, "@import ") && ok('/')
    ensures All(ok, NewValue(name, value, prefix))
  {
    var n := LowerAll(name);
    if n in URL_ATTRIBUTES {
      Css.AllConcat(ok, prefix, value);
    } else if n in SRCSET_ATTRIBUTES {
      SrcsetAdds(ok, value, prefix);
    } else if n == "style" {
      Css.UrlsAdd(ok, value, prefix);
      Css.ImportsAdd(ok, Css.RewriteUrls(value, prefix), prefix);
    }
  }

  /** Unquoted text has no whitespace, so there is no import in it and no space is added. */
  lemma NewUnquotedAdds(name: string, value: string, prefix: string)
    requires All(UnquotedChar, value) && Plain(prefix)
    ensures All(UnquotedChar, NewValue(name, value, prefix))
  {
    var n := LowerAll(name);
    if n in URL_ATTRIBUTES {
      Css.AllConcat(UnquotedChar, prefix, value);
    } else if n in SRCSET_ATTRIBUTES {
      SrcsetAdds(UnquotedChar, value, prefix);
    } else if n == "style" {
      Css.UrlsAdd(UnquotedChar, value, prefix);
      Css.ImportsNeedSpace(Css.RewriteUrls(value, prefix), prefix);
    }
  }

  lemma SrcsetHead(s: string, prefix: string)
    requires s != "" && !QuoteMark(s[0]) && Plain(prefix)
    ensures RewriteSrcset(s, prefix) != "" && !QuoteMark(RewriteSrcset(s, prefix)[0])
  {
  }

  lemma NewValueHead(name: string, value: string, prefix: string)
    requires value != "" && !QuoteMark(value[0]) && Plain(prefix)
    ensures NewValue(name, value, prefix) != "" && !QuoteMark(NewValue(name, value, prefix)[0])
  {
    var n := LowerAll(name);
    if n in SRCSET_ATTRIBUTES {
      SrcsetHead(value, prefix);
    } else if n == "style" {
      Css.UrlsHead(value, prefix);
      Css.ImportsHead(Css.RewriteUrls(value, prefix), prefix);
    }
  }

  lemma NewValueFits(q: Quoting, name: string, value: string, prefix: string)
    requires Fits(q, value) && Plain(prefix)
    ensures Fits(q, NewValue(name, value, prefix))
    ensures q == Unquoted ==> (NewValue(name, value, prefix) == "" <==> value == "")
  {
    match q
    case Unquoted =>
      NewUnquotedAdds(name, value, prefix);
      if value != "" { NewValueHead(name, value, prefix); } else { EmptyValue(name, prefix); }
    case Quoted(mark, _) => NewValueAdds(Not(mark), name, value, prefix);
  }

  lemma EmptyValue(name: string, prefix: string)
    ensures NewValue(name, "", prefix) == ""
  {
  }

  // --- what the rewrite of a candidate list means ---

  /** Reads the list once: a slash gets the prefix if only whitespace lies between it and a comma or the start. */
  function Prefixed(s: string, prefix: string, open: bool): string {
    if s == "" then ""
    else if s[0] == '/' && open then prefix + ("/" + Prefixed(s[1..], prefix, false))
    else [s[0]] + Prefixed(s[1..], prefix, s[0] == ',' || (open && Space(s[0])))
  }

  lemma {:induction false} SpacesArePrefixed(s: string, k: nat, prefix: string)
    requires k <= |s| && All(SpaceChar, s[..k])
    ensures Prefixed(s, prefix, true) == s[..k] + Prefixed(s[k..], prefix, true)
    decreases k
  {
    if k == 0 {
      assert s[..0] + Prefixed(s, prefix, true) == Prefixed(s, prefix, true) && s[0..] == s;
    } else {
      assert Space(s[0]) by { assert s[..k][0] == s[0]; }
      var rest, n := s[1..], k - 1;
      assert rest[..n] == s[..k][1..];
      SpacesArePrefixed(rest, n, prefix);
      assert rest[n..] == s[k..];
      assert s[..k] == [s[0]] + rest[..n];
    }
  }

  /** Without a candidate at its start, an open list reads like a closed one. */
  lemma {:induction false} NoCandidate(s: string, prefix: string)
    requires Candidate(s).None?
    ensures Prefixed(s, prefix, true) == Prefixed(s, prefix, false)
  {
    if s != "" && Space(s[0]) {
      assert Span(SpaceChar, s) == 1 + Span(SpaceChar, s[1..]);
      NoCandidate(s[1..], prefix);
    }
  }

  /** The replacement of a `srcset` value prefixes exactly the candidates that begin with a slash. */
  lemma {:induction false} SrcsetIsPrefixed(s: string, prefix: string)
    ensures RewriteSrcset(s, prefix) == Prefixed(s, prefix, true)
    decreases |s|, 1
  {
    var c := Candidate(s);
    if c.Some? {
      var k := c.value;
      SpacesArePrefixed(s, k, prefix);
      assert s[k..][0] == '/';
      TailIsPrefixed(s[k..], prefix);
      assert SrcsetTail(s[k..], prefix) == "/" + Prefixed(s[k..][1..], prefix, false);
    } else {
      TailIsPrefixed(s, prefix);
      NoCandidate(s, prefix);
    }
  }

  lemma {:induction false} TailIsPrefixed(s: string, prefix: string)
    ensures SrcsetTail(s, prefix) == Prefixed(s, prefix, false)
    decreases |s|, 0
  {
    if s != "" {
      if s[0] == ',' { SrcsetIsPrefixed(s[1..], prefix); } else { TailIsPrefixed(s[1..], prefix); }
    }
  }

  /** Some candidate of the list begins with a slash, be it one or two. */
  predicate HasRooted(s: string, open: bool) {
    s != "" && ((s[0] == '/' && open) || HasRooted(s[1..], s[0] == ',' || (open && Space(s[0]))))
  }

  lemma {:induction false} PrefixedGrows(s: string, prefix: string, open: bool)
    ensures |Prefixed(s, prefix, open)| >= |s|
    ensures HasRooted(s, open) && prefix != "" ==> |Prefixed(s, prefix, open)| > |s|
    ensures !HasRooted(s, open) ==> Prefixed(s, prefix, open) == s
  {
    if s != "" {
      if s[0] == '/' && open {
        PrefixedGrows(s[1..], prefix, false);
      } else {
        PrefixedGrows(s[1..], prefix, s[0] == ',' || (open && Space(s[0])));
        assert [s[0]] + s[1..] == s;
      }
    }
  }

  /** A candidate list is left alone exactly if no candidate begins with a slash. */
  lemma SrcsetUnchanged(s: string, prefix: string)
    requires prefix != ""
    ensures RewriteSrcset(s, prefix) == s <==> !HasRooted(s, true)
  {
    SrcsetIsPrefixed(s, prefix);
    PrefixedGrows(s, prefix, true);
  }

  predicate DoubleSlash(s: string) { |s| > 1 && s[0] == '/' && s[1] == '/' }

  /** The rewrite as documented: only a candidate that begins with a single slash gets the prefix. */
  function Documented(s: string, prefix: string, open: bool): string {
    if s == "" then ""
    else if s[0] == '/' && open && !DoubleSlash(s) then prefix + ("/" + Documented(s[1..], prefix, false))
    else [s[0]] + Documented(s[1..], prefix, s[0] == ',' || (open && Space(s[0])))
  }

  /** Some candidate of the list begins with two slashes. */
  predicate HasProtocolRelative(s: string, open: bool) {
    s != "" && ((open && DoubleSlash(s)) || HasProtocolRelative(s[1..], s[0] == ',' || (open && Space(s[0]))))
  }

  lemma {:induction false} DocumentedIsShorter(s: string, prefix: string, open: bool)
    ensures |Documented(s, prefix, open)| <= |Prefixed(s, prefix, open)|
    ensures HasProtocolRelative(s, open) && prefix != "" ==> |Documented(s, prefix, open)| < |Prefixed(s, prefix, open)|
    ensures !HasProtocolRelative(s, open) ==> Documented(s, prefix, open) == Prefixed(s, prefix, open)
  {
    if s != "" { DocumentedIsShorter(s[1..], prefix, s[0] == ',' || (open && Space(s[0]))); }
  }

  /** The rewrite of a candidate list is the documented one exactly if no candidate is protocol-relative. */
  lemma SrcsetAsDocumented(s: string, prefix: string)
    requires prefix != ""
    ensures RewriteSrcset(s, prefix) == Documented(s, prefix, true) <==> !HasProtocolRelative(s, true)
  {
    SrcsetIsPrefixed(s, prefix);
    DocumentedIsShorter(s, prefix, true);
  }

  /** A protocol-relative candidate moves under the prefix, although such a URL in any other attribute stays. */
  lemma ProtocolRelativeCandidateMoves(prefix: string)
    requires prefix != ""
    ensures RewriteSrcset("//cdn/a.png", prefix) != "//cdn/a.png" && RewriteUrl("//cdn/a.png", prefix) == "//cdn/a.png"
    ensures Documented("//cdn/a.png", prefix, true) == "//cdn/a.png"
  {
    DoubleSlashMoves("//cdn/a.png", prefix);
  }

  lemma DoubleSlashMoves(s: string, prefix: string)
    requires prefix != "" && DoubleSlash(s) && ',' !in s
    ensures RewriteSrcset(s, prefix) != s && RewriteUrl(s, prefix) == s && Documented(s, prefix, true) == s
  {
    SrcsetUnchanged(s, prefix);
    ClosedIsKept(s[1..], prefix);
    assert [s[0]] + s[1..] == s;
  }

  /** Up to the next comma nothing is a candidate's start. */
  lemma {:induction false} ClosedIsKept(s: string, prefix: string)
    requires ',' !in s
    ensures Documented(s, prefix, false) == s
  {
    if s != "" { ClosedIsKept(s[1..], prefix); }
  }

  // --- the way back ---

  /** The position of the first exact occurrence of a word, or none. */
  function Locate(s: string, word: string): (r: Option<nat>)
    ensures r.Some? ==> r.value + |word| <= |s|
  {
    if word <= s then Some(0)
    else if s == "" then None
    else
      var r := Locate(s[1..], word);
      if r.None? then None else Some(r.value + 1)
  }

  /** The path a runtime is asked for: what follows the prefix, as an absolute path. */
  function UpstreamPath(url: string, prefix: string): string {
    var cut := Locate(url, prefix);
    var rest := if cut.None? then "/" else url[cut.value + |prefix|..];
    if rest != "" && rest[0] == '/' then rest else "/" + rest
  }

  /** The proxy's own handling of a redirect to a path. */
  function RewriteLocation(location: string, prefix: string): string
    requires location != "" && location[0] == '/'
  {
    if |location| > 1 && location[1] == '/' then location else prefix + location
  }

  /** A rewritten root-relative URL, or redirect, reaches the runtime as the path it was. */
  lemma UpstreamUndoesPrefix(value: string, prefix: string)
    requires value != "" && value[0] == '/' && !(|value| > 1 && value[1] == '/')
    ensures UpstreamPath(RewriteUrl(value, prefix), prefix) == value
    ensures UpstreamPath(RewriteLocation(value, prefix), prefix) == value
  {
    PrefixComesOff(value, prefix);
  }

  lemma PrefixComesOff(path: string, prefix: string)
    requires path != "" && path[0] == '/'
    ensures UpstreamPath(prefix + path, prefix) == path
  {
    assert prefix <= prefix + path;
    assert (prefix + path)[|prefix|..] == path;
  }

  const UrlChar: char -> bool := (c: char) => !Space(c) && c != ','

  /** The candidates of a list that begin with a slash, in order. */
  function Rooted(s: string, open: bool): seq<string> {
    if s == "" then []
    else
      var first := if s[0] == '/' && open then [s[..Span(UrlChar, s)]] else [];
      first + Rooted(s[1..], s[0] == ',' || (open && Space(s[0])))
  }

  function WithPrefix(urls: seq<string>, prefix: string): seq<string> {
    seq(|urls|, k requires 0 <= k < |urls| => prefix + urls[k])
  }

  /** Text without a comma holds no further candidate once one has begun. */
  lemma {:induction false} NoneRooted(a: string, b: string)
    requires ',' !in a
    ensures Rooted(a + b, false) == Rooted(b, false)
  {
    if a == "" {
      assert a + b == b;
    } else {
      assert (a + b)[1..] == a[1..] + b && (a + b)[0] == a[0];
      NoneRooted(a[1..], b);
    }
  }

  /** A candidate's text is left alone up to its end. */
  lemma {:induction false} UrlIsKept(s: string, prefix: string)
    ensures var n, out := Span(UrlChar, s), Prefixed(s, prefix, false);
            n <= |out| && Span(UrlChar, out) == n && out[..n] == s[..n]
  {
    if s != "" && UrlChar(s[0]) {
      UrlIsKept(s[1..], prefix);
      UrlGoesOn(s[0], s[1..], Prefixed(s[1..], prefix, false), Span(UrlChar, s[1..]));
      assert s == [s[0]] + s[1..];
    }
  }

  lemma UrlGoesOn(c: char, s: string, out: string, n: nat)
    requires UrlChar(c) && n == Span(UrlChar, s) == Span(UrlChar, out) && out[..n] == s[..n]
    ensures Span(UrlChar, [c] + out) == n + 1 == Span(UrlChar, [c] + s) && ([c] + out)[..n + 1] == ([c] + s)[..n + 1]
  {
    assert ([c] + out)[1..] == out && ([c] + s)[1..] == s;
    assert ([c] + out)[..n + 1] == [c] + out[..n] && ([c] + s)[..n + 1] == [c] + s[..n];
  }

  lemma {:induction false} SpanThrough(a: string, b: string)
    requires All(UrlChar, a)
    ensures Span(UrlChar, a + b) == |a| + Span(UrlChar, b)
  {
    if a == "" {
      assert a + b == b;
    } else {
      assert (a + b)[1..] == a[1..] + b && (a + b)[0] == a[0];
      SpanThrough(a[1..], b);
    }
  }

  /** What the first candidate of the rewritten list is. */
  lemma FirstRooted(s: string, prefix: string)
    requires s != "" && s[0] == '/' && prefix != "" && All(UrlChar, prefix)
    ensures var out, n := Prefixed(s, prefix, true), Span(UrlChar, s);
            Span(UrlChar, out) == |prefix| + n && out[..|prefix| + n] == prefix + s[..n]
  {
    var out, n := Prefixed(s, prefix, true), Span(UrlChar, s);
    var kept := Prefixed(s, prefix, false);
    assert kept == "/" + Prefixed(s[1..], prefix, false) && out == prefix + kept;
    UrlIsKept(s, prefix);
    SpanThrough(prefix, kept);
    assert out[..|prefix| + n] == prefix + kept[..n];
  }

  /** The rewritten list's candidates are the original's under the prefix. */
  lemma {:induction false} RootedMoves(s: string, prefix: string, open: bool)
    requires prefix != "" && prefix[0] == '/' && All(UrlChar, prefix)
    ensures Rooted(Prefixed(s, prefix, open), open) == WithPrefix(Rooted(s, open), prefix)
  {
    if s == "" {
    } else if s[0] == '/' && open {
      RootedMoves(s[1..], prefix, false);
      CandidateMoves(s, prefix);
    } else {
      var next := s[0] == ',' || (open && Space(s[0]));
      RootedMoves(s[1..], prefix, next);
      NotRooted(s[0], Prefixed(s[1..], prefix, next), open);
      NotRooted(s[0], s[1..], open);
      assert [s[0]] + s[1..] == s;
    }
  }

  lemma NotRooted(c: char, rest: string, open: bool)
    requires !(c == '/' && open)
    ensures Rooted([c] + rest, open) == Rooted(rest, c == ',' || (open && Space(c)))
  {
    assert ([c] + rest)[1..] == rest;
  }

  lemma CandidateMoves(s: string, prefix: string)
    requires s != "" && s[0] == '/' && prefix != "" && prefix[0] == '/' && All(UrlChar, prefix)
    requires Rooted(Prefixed(s[1..], prefix, false), false) == WithPrefix(Rooted(s[1..], false), prefix)
    ensures Rooted(Prefixed(s, prefix, true), true) == WithPrefix(Rooted(s, true), prefix)
  {
    var rest, out := Prefixed(s[1..], prefix, false), Prefixed(s, prefix, true);
    var first := s[..Span(UrlChar, s)];
    FirstRooted(s, prefix);
    AfterPrefix(prefix, out, rest);
    RootedFirst(out, prefix + first);
    RootedFirst(s, first);
    PrefixFirst(first, Rooted(s[1..], false), prefix);
  }

  lemma RootedFirst(s: string, first: string)
    requires s != "" && s[0] == '/' && first == s[..Span(UrlChar, s)]
    ensures Rooted(s, true) == [first] + Rooted(s[1..], false)
  {
  }

  lemma PrefixFirst(url: string, urls: seq<string>, prefix: string)
    ensures WithPrefix([url] + urls, prefix) == [prefix + url] + WithPrefix(urls, prefix)
  {
  }

  lemma AfterPrefix(prefix: string, out: string, rest: string)
    requires prefix != "" && All(UrlChar, prefix) && out == prefix + ("/" + rest)
    ensures Rooted(out[1..], false) == Rooted(rest, false)
  {
    var inner := prefix[1..] + "/";
    assert out[1..] == inner + rest;
    forall k | 0 <= k < |inner| ensures inner[k] != ',' { if k < |prefix| - 1 { assert inner[k] == prefix[k + 1]; } }
    NoneRooted(inner, rest);
  }

  /** Every candidate of a rewritten list that begins with a slash reaches the runtime as the candidate it was. */
  lemma UpstreamUndoesSrcset(s: string, prefix: string, k: nat)
    requires prefix != "" && prefix[0] == '/' && All(UrlChar, prefix)
    ensures |Rooted(RewriteSrcset(s, prefix), true)| == |Rooted(s, true)|
    ensures k < |Rooted(s, true)| ==>
              UpstreamPath(Rooted(RewriteSrcset(s, prefix), true)[k], prefix) == Rooted(s, true)[k]
  {
    SrcsetIsPrefixed(s, prefix);
    RootedMoves(s, prefix, true);
    if k < |Rooted(s, true)| {
      RootedBegins(s, true, k);
      PrefixComesOff(Rooted(s, true)[k], prefix);
    }
  }

  lemma {:induction false} RootedBegins(s: string, open: bool, k: nat)
    requires k < |Rooted(s, open)|
    ensures Rooted(s, open)[k] != "" && Rooted(s, open)[k][0] == '/'
  {
    var first := s[0] == '/' && open;
    var rest := s[0] == ',' || (open && Space(s[0]));
    if first && k > 0 { RootedBegins(s[1..], rest, k - 1); }
    if !first { RootedBegins(s[1..], rest, k); }
  }
}
