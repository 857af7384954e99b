/** Where the URLs of a document lead, before it is moved under a mount and after, defined apart from the rewrite. */
module UrlResolution {
  import opened Wrappers
  import opened Chars
  import opened Html
  import opened HtmlRewrite
  import opened HtmlRescan
  import Css

  /** What a URL names: another site, a path of the runtime, a path outside it, or a place relative to the page. */
  datatype Target = Elsewhere(url: string) | Runtime(path: string) | Outside(path: string) | Beside(reference: string)

  predicate SchemeChar(c: char) { Letter(c) || '0' <= c <= '9' || c == '+' || c == '-' || c == '.' }

  /** A letter, then letters, digits and `+`, `-`, `.`, then a colon (section 3.1 of RFC 3986). */
  predicate HasScheme(url: string) {
    exists n :: 0 < n < |url| && url[n] == ':' && Letter(url[0]) && forall k :: 0 < k < n ==> SchemeChar(url[k])
  }

  /** What a URL names on a page served by a runtime whose root is mounted at a path. */
  function Resolve(url: string, mount: string): Target {
    if HasScheme(url) || "//" <= url then Elsewhere(url)
    else if url == "" || url[0] != '/' then Beside(url)
    else if mount + "/" <= url then Runtime(url[|mount|..])
    else Outside(url)
  }

  /** A mount point: a path of at least one character after its slash. */
  predicate MountPoint(mount: string) { Plain(mount) && |mount| > 1 && mount[0] == '/' && mount[1] != '/' }

  /** The only URLs that may change: they begin with one slash and no second one. */
  predicate BeginsWithOneSlash(url: string) { url != "" && url[0] == '/' && (|url| > 1 ==> url[1] != '/') }

  /** What may become of an attribute's value. */
  predicate Follows(name: string, before: string, after: string, mount: string) {
    if SpellsOne(name, {"src", "href", "action", "poster", "formaction", "data", "background"}) then
      && Resolve(after, mount) == Resolve(before, "")
      && (!BeginsWithOneSlash(before) ==> after == before)
    else if SpellsOne(name, {"srcset", "imagesrcset"}) then after == Prefixed(before, mount, true)
    else if Spells(name, "style") then after == Css.Rewrite(before, mount)
    else after == before
  }

  /** A URL leads to the same place from under the mount as it did from the root. */
  lemma UrlsFollow(url: string, mount: string)
    requires MountPoint(mount)
    ensures Resolve(RewriteUrl(url, mount), mount) == Resolve(url, "")
    ensures !BeginsWithOneSlash(url) ==> RewriteUrl(url, mount) == url
  {
    var moved := RewriteUrl(url, mount);
    if BeginsWithOneSlash(url) {
      assert moved == mount + url && moved[|mount|..] == url;
      assert mount + "/" <= moved;
      assert !("//" <= moved) by { assert moved[1] == mount[1]; }
      assert !("//" <= url);
    } else if url != "" && url[0] == '/' {
      assert "//" <= url;
    }
  }

  lemma ValuesFollow(name: string, value: string, mount: string)
    requires MountPoint(mount)
    ensures Follows(name, value, NewValue(name, value, mount), mount)
  {
    LowerSpellsOne(name, {"src", "href", "action", "poster", "formaction", "data", "background"});
    LowerSpellsOne(name, {"srcset", "imagesrcset"});
    LowerSpells(name, "style");
    UrlsFollow(value, mount);
    SrcsetIsPrefixed(value, mount);
  }

  /** So does a redirect to a path, which leaves other hosts alone. */
  lemma RedirectsFollow(location: string, mount: string)
    requires MountPoint(mount) && location != "" && location[0] == '/'
    ensures Resolve(RewriteLocation(location, mount), mount) == Resolve(location, "")
  {
    UrlsFollow(location, mount);
  }

  lemma {:induction false} NotLocated(url: string, prefix: string)
    requires forall i :: 0 <= i <= |url| ==> !(prefix <= url[i..])
    ensures Locate(url, prefix) == None
  {
    assert url[0..] == url;
    if url != "" {
      forall i | 0 <= i <= |url[1..]| ensures !(prefix <= url[1..][i..]) { assert url[1..][i..] == url[i + 1..]; }
      NotLocated(url[1..], prefix);
    }
  }

  /** A request that does not name the mount goes to the runtime's root; every request's path is absolute. */
  lemma UpstreamIsAbsolute(url: string, mount: string)
    ensures "/" <= UpstreamPath(url, mount)
    ensures (forall i :: 0 <= i <= |url| ==> !(mount <= url[i..])) ==> UpstreamPath(url, mount) == "/"
  {
    if forall i :: 0 <= i <= |url| ==> !(mount <= url[i..]) { NotLocated(url, mount); }
  }

  // --- whole documents ---

  predicate PieceFollows(p: Piece, q: Piece, mount: string) {
    if p.Attribute? && p.value.Some? then
      && q.Attribute? && q.name == p.name && q.space == p.space && q.value.Some?
      && q.value.value.space == p.value.value.space && q.value.value.quoting == p.value.value.quoting
      && Follows(p.name, p.value.value.text, q.value.value.text, mount)
    else q == p
  }

  predicate TokenFollows(t: Token, u: Token, mount: string) {
    match t
    case Tag(name, pieces, ending) =>
      && u.Tag? && u.name == name && u.ending == ending && |u.pieces| == |pieces|
      && forall j :: 0 <= j < |pieces| ==> PieceFollows(pieces[j], u.pieces[j], mount)
    case RawText(name, text) => u == RawText(name, if name == "style" then Css.Rewrite(text, mount) else text)
    case _ => u == t
  }

  lemma {:induction false} PiecesFollow(ps: seq<Piece>, mount: string)
    requires MountPoint(mount)
    ensures |MapPieces(ps, mount)| == |ps|
    ensures forall j :: 0 <= j < |ps| ==> PieceFollows(ps[j], MapPieces(ps, mount)[j], mount)
  {
    if ps != [] {
      PiecesFollow(ps[1..], mount);
      var p := ps[0];
      if p.Attribute? && p.value.Some? { ValuesFollow(p.name, p.value.value.text, mount); }
      forall j | 0 <= j < |ps| ensures PieceFollows(ps[j], MapPieces(ps, mount)[j], mount) {
        if j > 0 { assert ps[j] == ps[1..][j - 1]; }
      }
    }
  }

  lemma {:induction false} TokensFollow(ts: seq<Token>, mount: string)
    requires MountPoint(mount)
    ensures |MapTokens(ts, mount)| == |ts|
    ensures forall k :: 0 <= k < |ts| ==> TokenFollows(ts[k], MapTokens(ts, mount)[k], mount)
  {
    if ts != [] {
      TokensFollow(ts[1..], mount);
      if ts[0].Tag? { PiecesFollow(ts[0].pieces, mount); }
      forall k | 0 <= k < |ts| ensures TokenFollows(ts[k], MapTokens(ts, mount)[k], mount) {
        if k > 0 { assert ts[k] == ts[1..][k - 1]; }
      }
    }
  }

  /** Every token of a document follows under the mount. */
  predicate Moves(body: string, out: string, mount: string) {
    var was, now := Scan(body), Scan(out);
    |now| == |was| && forall k :: 0 <= k < |was| ==> TokenFollows(was[k], now[k], mount)
  }

  /**
   Scanning the rewritten document finds, token for token, the original's: every URL attribute leads under the
   mount to where it led from the root, and stays as it is unless it begins with one slash; candidate lists and
   styles are rewritten as such; every other attribute, text, script, comment and declaration is the same.
   */
  lemma DocumentsFollow(body: string, mount: string)
    requires MountPoint(mount)
    ensures Moves(body, Rewrite(body, mount), mount)
  {
    RescanIsMapped(body, mount);
    TokensFollow(Scan(body), mount);
  }

  // --- as a browser reads it ---

  predicate Dropped(c: char) { c == '\t' || c == '\n' || c == '\r' }

  /** The URL without its tabs and line ends. */
  function Joined(url: string): (r: string)
    ensures |r| <= |url|
  {
    if url == "" then "" else if Dropped(url[0]) then Joined(url[1..]) else [url[0]] + Joined(url[1..])
  }

  function Trimmed(url: string): string {
    if url != "" && url[0] <= ' ' then Trimmed(url[1..]) else url
  }

  /**
   What a browser parses: no control character or space in front, no tab or line end (section 4.4 of the URL
   standard).
   */
  function Parsed(url: string): string { Trimmed(Joined(url)) }

  predicate AnySlash(c: char) { c == '/' || c == '\\' }

  /** One slash or backslash in front and no second one. */
  predicate ReadsRooted(url: string) { url != "" && AnySlash(url[0]) && (|url| > 1 ==> !AnySlash(url[1])) }

  predicate ReadsHost(url: string) { |url| > 1 && AnySlash(url[0]) && AnySlash(url[1]) }

  /** What a URL names to a browser, which takes a backslash for a slash. */
  function Browse(url: string, mount: string): Target {
    var p := Parsed(url);
    if HasScheme(p) || ReadsHost(p) then Elsewhere(p)
    else if !ReadsRooted(p) then Beside(p)
    else if mount + "/" <= p || (mount == "" && p[0] == '\\') then Runtime("/" + p[|mount| + 1..])
    else Outside(p)
  }

  lemma {:induction false} JoinedConcat(a: string, b: string)
    requires forall c :: c in a ==> !Dropped(c)
    ensures Joined(a + b) == a + Joined(b)
  {
    if a == "" {
      assert a + b == b && a + Joined(b) == Joined(b);
    } else {
      assert (a + b)[1..] == a[1..] + b;
      JoinedConcat(a[1..], b);
      assert [a[0]] + (a[1..] + Joined(b)) == a + Joined(b);
    }
  }

  lemma PlainIsKept(mount: string, c: char)
    requires Plain(mount) && c in mount
    ensures !Dropped(c)
  {
    var k :| 0 <= k < |mount| && mount[k] == c;
    assert PrefixChar(mount[k]);
  }

  lemma MovedIsParsed(url: string, mount: string)
    requires MountPoint(mount) && BeginsWithOneSlash(url)
    ensures Parsed(mount + url) == mount + Parsed(url) && Parsed(url) != "" && Parsed(url)[0] == '/'
  {
    forall c | c in mount ensures !Dropped(c) { PlainIsKept(mount, c); }
    JoinedConcat(mount, url);
    assert (mount + Joined(url))[0] == '/';
  }

  /**
   To a browser, a rewritten URL leads under the mount to where it led from the root exactly if the rewrite and
   the browser agree on whether it is rooted: whitespace in front, and backslashes, set them apart.
   */
  lemma BrowserFollows(url: string, mount: string)
    requires MountPoint(mount) && mount[1] != '\\'
    ensures Browse(RewriteUrl(url, mount), mount) == Browse(url, "")
            <==> (ReadsRooted(Parsed(url)) <==> BeginsWithOneSlash(url))
  {
    var p := Parsed(url);
    if BeginsWithOneSlash(url) {
      MovedIsParsed(url, mount);
      var q := Parsed(mount + url);
      assert q == mount + p && q[0] == '/' && q[1] == mount[1];
      assert RewriteUrl(url, mount) == mount + url;
      assert mount + "/" <= q;
      assert q[|mount| + 1..] == p[1..];
      if ReadsRooted(p) { assert "" + "/" <= p && ReadsRooted(q); }
    } else if ReadsRooted(p) {
      assert RewriteUrl(url, mount) == url;
      assert Browse(url, "") == Runtime("/" + p[1..]);
      if mount + "/" <= p { assert |"/" + p[|mount| + 1..]| < |"/" + p[1..]|; }
    }
  }
}
