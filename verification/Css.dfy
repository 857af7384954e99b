/**
 The stylesheet rewrite: two passes of a global replacement, one for `url(` and one for `@import`.

 Besides what a pass adds and what comes back when its prefix is taken off, the promise is that every
 root-relative URL of the output lies under the prefix.
 */
module Css {
  import opened Wrappers
  import opened Chars

  /** What a pass found at the start of the text: its length and the quote in it. */
  datatype Match = Match(length: nat, quote: string)

  /** The quote and the slash of a root-relative URL, with no second slash or backslash after them. */
  function RootUrl(s: string, at: nat, quoted: bool): (m: Option<Match>)
    requires at <= |s|
    ensures m.Some? ==> at < m.value.length <= |s| && |m.value.quote| <= 1 && All(QuoteMark, m.value.quote)
    ensures m.Some? ==> forall c :: c in m.value.quote ==> c in s
  {
    var quote := if at < |s| && QuoteMark(s[at]) then s[at..at + 1] else "";
    var slash := at + |quote|;
    if (quoted && quote == "") || slash >= |s| || s[slash] != '/' then None
    else if slash + 1 < |s| && (s[slash + 1] == '/' || s[slash + 1] == '\\') then None
    else Some(Match(slash + 1, quote))
  }

  /** `url(`, optional whitespace, an optional quote and a root-relative path. */
  function MatchUrl(s: string): (m: Option<Match>)
    ensures m.Some? ==> 0 < m.value.length <= |s| && |m.value.quote| <= 1 && All(QuoteMark, m.value.quote)
    ensures m.Some? ==> forall c :: c in m.value.quote ==> c in s
  {
    if !Begins(s, "url(") then None else RootUrl(s, 4 + Span(Space, s[4..]), false)
  }

  /** `@import`, whitespace, a quote and a root-relative path. */
  function MatchImport(s: string): (m: Option<Match>)
    ensures m.Some? ==> 0 < m.value.length <= |s| && |m.value.quote| <= 1 && All(QuoteMark, m.value.quote)
    ensures m.Some? ==> (forall c :: c in m.value.quote ==> c in s) && exists k :: 0 <= k < |s| && Space(s[k])
  {
    if !Begins(s, "@import") || Span(Space, s[7..]) == 0 then None
    else
      assert Space(s[7..][0]) && Space(s[7]);
      RootUrl(s, 7 + Span(Space, s[7..]), true)
  }

  function RewriteUrls(s: string, prefix: string): string
    decreases |s|
  {
    if s == "" then ""
    else
      var m := MatchUrl(s);
      if m.None? then [s[0]] + RewriteUrls(s[1..], prefix)
      else "url(" + m.value.quote + prefix + "/" + RewriteUrls(s[m.value.length..], prefix)
  }

  function RewriteImports(s: string, prefix: string): string
    decreases |s|
  {
    if s == "" then ""
    else
      var m := MatchImport(s);
      if m.None? then [s[0]] + RewriteImports(s[1..], prefix)
      else "@import " + m.value.quote + prefix + "/" + RewriteImports(s[m.value.length..], prefix)
  }

  function Rewrite(s: string, prefix: string): string {
    RewriteImports(RewriteUrls(s, prefix), prefix)
  }

  // --- what the passes never add ---

  lemma AllConcat(ok: char -> bool, a: string, b: string)
    requires All(ok, a) && All(ok, b)
    ensures All(ok, a + b)
  {
  }

  /** What a pass puts in place of a match. */
  lemma InsertedIs(ok: char -> bool, s: string, word: string, m: Match, prefix: string)
    requires All(ok, s) && All(ok, prefix) && All(ok, word) && ok('/') && forall c :: c in m.quote ==> c in s
    ensures All(ok, word + m.quote + prefix + "/")
  {
    forall k | 0 <= k < |m.quote| ensures ok(m.quote[k]) { assert m.quote[k] in s; }
    AllConcat(ok, word, m.quote);
    AllConcat(ok, word + m.quote, prefix);
    AllConcat(ok, word + m.quote + prefix, "/");
  }

  lemma {:induction false} UrlsAdd(ok: char -> bool, s: string, prefix: string)
    requires All(ok, s) && All(ok, prefix) && All(ok, "url(") && ok('/')
    ensures All(ok, RewriteUrls(s, prefix))
    decreases |s|
  {
    if s != "" {
      var m := MatchUrl(s);
      if m.None? {
        UrlsAdd(ok, s[1..], prefix);
        AllConcat(ok, [s[0]], RewriteUrls(s[1..], prefix));
      } else {
        UrlsAdd(ok, s[m.value.length..], prefix);
        InsertedIs(ok, s, "url(", m.value, prefix);
        AllConcat(ok, "url(" + m.value.quote + prefix + "/", RewriteUrls(s[m.value.length..], prefix));
      }
    }
  }

  lemma {:induction false} ImportsAdd(ok: char -> bool, s: string, prefix: string)
    requires All(ok, s) && All(ok, prefix) && All(ok, "@import ") && ok('/')
    ensures All(ok, RewriteImports(s, prefix))
    decreases |s|
  {
    if s != "" {
      var m := MatchImport(s);
      if m.None? {
        ImportsAdd(ok, s[1..], prefix);
        AllConcat(ok, [s[0]], RewriteImports(s[1..], prefix));
      } else {
        ImportsAdd(ok, s[m.value.length..], prefix);
        InsertedIs(ok, s, "@import ", m.value, prefix);
        AllConcat(ok, "@import " + m.value.quote + prefix + "/", RewriteImports(s[m.value.length..], prefix));
      }
    }
  }

  /** Without whitespace there is nothing to import. */
  lemma {:induction false} ImportsNeedSpace(s: string, prefix: string)
    requires forall k :: 0 <= k < |s| ==> !Space(s[k])
    ensures RewriteImports(s, prefix) == s
    decreases |s|
  {
    if s != "" {
      ImportsNeedSpace(s[1..], prefix);
      assert [s[0]] + s[1..] == s;
    }
  }

  /** A pass leaves text beginning as it did, up to case. */
  lemma UrlsHead(s: string, prefix: string)
    requires s != ""
    ensures RewriteUrls(s, prefix) != "" && Lower(RewriteUrls(s, prefix)[0]) == Lower(s[0])
  {
    if MatchUrl(s).Some? { assert Lower(s[0]) == LowerAll(s[..4])[0]; }
  }

  lemma ImportsHead(s: string, prefix: string)
    requires s != ""
    ensures RewriteImports(s, prefix) != "" && Lower(RewriteImports(s, prefix)[0]) == Lower(s[0])
  {
    if MatchImport(s).Some? { assert Lower(s[0]) == LowerAll(s[..7])[0]; }
  }

  // --- no closing tag appears ---

  /** The text has the word, in whatever case, at position `k`. */
  predicate At(s: string, k: nat, word: string) { k <= |s| && Begins(s[k..], word) }

  ghost predicate Lacks(s: string, word: string) { forall k :: 0 <= k <= |s| ==> !At(s, k, word) }

  /** A word without the letter a pass begins its output with was there before the pass. */
  lemma {:induction false} UrlsBegin(s: string, prefix: string, word: string)
    requires Begins(RewriteUrls(s, prefix), word) && 'u' !in word
    ensures Begins(s, word)
    decreases |word|
  {
    if word != "" {
      var out := RewriteUrls(s, prefix);
      assert Lower(out[0]) == word[0] && word[0] in word by { assert out[..|word|][0] == out[0]; }
      assert MatchUrl(s).None?;
      var rest := RewriteUrls(s[1..], prefix);
      assert out == [s[0]] + rest;
      BeginsRest(out, word);
      assert out[1..] == rest;
      assert forall c :: c in word[1..] ==> c in word;
      UrlsBegin(s[1..], prefix, word[1..]);
      BeginsFirst(s, word);
    }
  }

  lemma BeginsRest(s: string, word: string)
    requires word != "" && Begins(s, word)
    ensures Begins(s[1..], word[1..]) && Lower(s[0]) == word[0]
  {
    assert s[1..][..|word| - 1] == s[..|word|][1..];
    assert LowerAll(s[..|word|])[0] == word[0];
  }

  lemma BeginsFirst(s: string, word: string)
    requires word != "" && s != "" && Lower(s[0]) == word[0] && Begins(s[1..], word[1..])
    ensures Begins(s, word)
  {
    assert s[..|word|] == [s[0]] + s[1..][..|word| - 1];
    assert LowerAll(s[..|word|]) == word;
  }

  lemma {:induction false} ImportsBegin(s: string, prefix: string, word: string)
    requires Begins(RewriteImports(s, prefix), word) && '@' !in word
    ensures Begins(s, word)
    decreases |word|
  {
    if word != "" {
      var out := RewriteImports(s, prefix);
      assert Lower(out[0]) == word[0] && word[0] in word by { assert out[..|word|][0] == out[0]; }
      assert MatchImport(s).None?;
      var rest := RewriteImports(s[1..], prefix);
      assert out == [s[0]] + rest;
      BeginsRest(out, word);
      assert out[1..] == rest;
      assert forall c :: c in word[1..] ==> c in word;
      ImportsBegin(s[1..], prefix, word[1..]);
      BeginsFirst(s, word);
    }
  }

  lemma LacksStart(s: string, word: string)
    requires Lacks(s, word)
    ensures !Begins(s, word)
  {
    assert s[0..] == s && !At(s, 0, word);
  }

  lemma LacksRest(s: string, n: nat, word: string)
    requires Lacks(s, word) && n <= |s|
    ensures Lacks(s[n..], word)
  {
    forall k | 0 <= k <= |s[n..]| ensures !At(s[n..], k, word) {
      assert s[n..][k..] == s[n + k..];
      assert !At(s, n + k, word);
    }
  }

  /** Text without the word's first letter, before text without the word. */
  lemma LacksBefore(a: string, b: string, word: string)
    requires word != "" && Lacks(b, word) && forall k :: 0 <= k < |a| ==> Lower(a[k]) != word[0]
    ensures Lacks(a + b, word)
  {
    forall k | 0 <= k <= |a + b| ensures !At(a + b, k, word) {
      if k < |a| {
        assert (a + b)[k..][0] == a[k];
        if Begins((a + b)[k..], word) { BeginsRest((a + b)[k..], word); }
      } else {
        assert (a + b)[k..] == b[k - |a|..];
        assert !At(b, k - |a|, word);
      }
    }
  }

  lemma LacksFirst(s: string, out: string, word: string)
    requires s != "" && Lacks(out, word) && !Begins([s[0]] + out, word)
    ensures Lacks([s[0]] + out, word)
  {
    forall k | 0 <= k <= |out| + 1 ensures !At([s[0]] + out, k, word) {
      if k > 0 {
        assert ([s[0]] + out)[k..] == out[k - 1..];
        assert !At(out, k - 1, word);
      } else {
        assert ([s[0]] + out)[0..] == [s[0]] + out;
      }
    }
  }

  /** A word that begins with `<` and has neither `u` nor `@`. */
  predicate ClosingWord(word: string) { word != "" && word[0] == '<' && 'u' !in word && '@' !in word }

  lemma {:induction false} UrlsLack(s: string, prefix: string, word: string)
    requires Lacks(s, word) && ClosingWord(word) && '<' !in prefix
    ensures Lacks(RewriteUrls(s, prefix), word)
    decreases |s|
  {
    var m := MatchUrl(s);
    if s == "" {
    } else if m.None? {
      LacksRest(s, 1, word);
      UrlsLack(s[1..], prefix, word);
      LacksStart(s, word);
      if Begins(RewriteUrls(s, prefix), word) { UrlsBegin(s, prefix, word); }
      LacksFirst(s, RewriteUrls(s[1..], prefix), word);
    } else {
      LacksRest(s, m.value.length, word);
      UrlsLack(s[m.value.length..], prefix, word);
      var head := "url(" + m.value.quote + prefix + "/";
      NoLess("url(", m.value.quote, prefix);
      LacksBefore(head, RewriteUrls(s[m.value.length..], prefix), word);
    }
  }

  lemma NoLess(word: string, quote: string, prefix: string)
    requires All(QuoteMark, quote) && '<' !in prefix && '<' !in word
    ensures forall k :: 0 <= k < |word + quote + prefix + "/"| ==> Lower((word + quote + prefix + "/")[k]) != '<'
  {
    var s := word + quote + prefix + "/";
    forall k | 0 <= k < |s| ensures s[k] != '<' {
      if k < |word| { assert s[k] == word[k] && word[k] in word; }
      else if k < |word| + |quote| { assert s[k] == quote[k - |word|]; }
      else if k < |word| + |quote| + |prefix| {
        assert s[k] == prefix[k - |word| - |quote|] && prefix[k - |word| - |quote|] in prefix;
      }
    }
  }

  lemma {:induction false} ImportsLack(s: string, prefix: string, word: string)
    requires Lacks(s, word) && ClosingWord(word) && '<' !in prefix
    ensures Lacks(RewriteImports(s, prefix), word)
    decreases |s|
  {
    var m := MatchImport(s);
    if s == "" {
    } else if m.None? {
      LacksRest(s, 1, word);
      ImportsLack(s[1..], prefix, word);
      LacksStart(s, word);
      if Begins(RewriteImports(s, prefix), word) { ImportsBegin(s, prefix, word); }
      LacksFirst(s, RewriteImports(s[1..], prefix), word);
    } else {
      LacksRest(s, m.value.length, word);
      ImportsLack(s[m.value.length..], prefix, word);
      var head := "@import " + m.value.quote + prefix + "/";
      NoLess("@import ", m.value.quote, prefix);
      LacksBefore(head, RewriteImports(s[m.value.length..], prefix), word);
    }
  }

  /** Rewriting a stylesheet never makes a closing tag appear in it. */
  lemma RewriteLacks(s: string, prefix: string, word: string)
    requires Lacks(s, word) && ClosingWord(word) && '<' !in prefix
    ensures Lacks(Rewrite(s, prefix), word)
  {
    UrlsLack(s, prefix, word);
    ImportsLack(RewriteUrls(s, prefix), prefix, word);
  }

  // --- the way back ---

  /** A prefix that itself reads as a root-relative path. */
  predicate Mounts(prefix: string) {
    |prefix| > 1 && prefix[0] == '/' && prefix[1] != '/' && prefix[1] != '\\'
  }

  /** An optional quote, or a needed one, and a root-relative path. */
  predicate Rooted(s: string, quoted: bool) {
    if s != "" && QuoteMark(s[0]) then RootedPath(s[1..]) else !quoted && RootedPath(s)
  }

  predicate RootedPath(s: string) {
    s != "" && s[0] == '/' && (|s| > 1 ==> s[1] != '/' && s[1] != '\\')
  }

  lemma RootUrlIs(s: string, at: nat, quoted: bool)
    requires at <= |s|
    ensures RootUrl(s, at, quoted).Some? <==> Rooted(s[at..], quoted)
  {
  }

  /** Takes the prefix off every root-relative URL that has it. */
  function TakeOffUrls(s: string, prefix: string): string
    decreases |s|
  {
    if s == "" then ""
    else
      var m := MatchUrl(s);
      if m.Some? && prefix + "/" <= s[m.value.length - 1..] then
        "url(" + m.value.quote + "/" + TakeOffUrls(s[m.value.length + |prefix|..], prefix)
      else [s[0]] + TakeOffUrls(s[1..], prefix)
  }

  lemma UrlsKeep(s: string, prefix: string)
    requires s != "" && Lower(s[0]) != 'u'
    ensures RewriteUrls(s, prefix) == [s[0]] + RewriteUrls(s[1..], prefix)
  {
    if Begins(s, "url(") { BeginsRest(s, "url("); }
  }

  lemma UrlsKeepPath(s: string, prefix: string)
    ensures RootedPath(RewriteUrls(s, prefix)) <==> RootedPath(s)
  {
    if s != "" {
      UrlsHead(s, prefix);
      if s[0] == '/' {
        UrlsKeep(s, prefix);
        if |s| > 1 { UrlsHead(s[1..], prefix); }
      }
    }
  }

  /** The pass leaves what follows `url(` root-relative or not as it was. */
  lemma UrlsKeepRooted(s: string, prefix: string)
    ensures Rooted(RewriteUrls(s, prefix), false) <==> Rooted(s, false)
  {
    UrlsKeepPath(s, prefix);
    if s != "" {
      UrlsHead(s, prefix);
      if QuoteMark(s[0]) {
        UrlsKeep(s, prefix);
        UrlsKeepPath(s[1..], prefix);
        assert RewriteUrls(s, prefix)[1..] == RewriteUrls(s[1..], prefix);
      }
    }
  }

  lemma {:induction false} UrlsKeepSpaces(s: string, prefix: string)
    ensures var n := Span(Space, s); var out := RewriteUrls(s, prefix);
            n <= |out| && Span(Space, out) == n && out[n..] == RewriteUrls(s[n..], prefix)
  {
    if s != "" {
      UrlsHead(s, prefix);
      if Space(s[0]) {
        UrlsKeep(s, prefix);
        UrlsKeepSpaces(s[1..], prefix);
        var n, rest := Span(Space, s[1..]), RewriteUrls(s[1..], prefix);
        assert RewriteUrls(s, prefix)[1..] == rest;
        assert RewriteUrls(s, prefix)[n + 1..] == rest[n..] && s[n + 1..] == s[1..][n..];
      } else {
        assert s[0..] == s && RewriteUrls(s, prefix)[0..] == RewriteUrls(s, prefix);
      }
    }
  }

  lemma MatchUrlIs(s: string)
    ensures MatchUrl(s).Some? <==> Begins(s, "url(") && Rooted(s[4..][Span(Space, s[4..])..], false)
  {
    if Begins(s, "url(") {
      var n := Span(Space, s[4..]);
      RootUrlIs(s, 4 + n, false);
      assert s[4..][n..] == s[4 + n..];
    }
  }

  lemma CutOneMore(c: char, a: string, s: string, n: nat)
    requires s == [c] + a && n <= |a|
    ensures s[n + 1..] == a[n..]
  {
  }

  lemma CutNone(s: string)
    ensures s[0..] == s
  {
  }

  lemma UrlsKeepLetter(s: string, others: string, n: nat, m: nat, prefix: string)
    requires s != "" && Lower(s[0]) != 'u' && others == s[1..] && n <= |others| && m == n + 1
    requires n <= |RewriteUrls(others, prefix)| && RewriteUrls(others, prefix)[n..] == RewriteUrls(others[n..], prefix)
    ensures m <= |RewriteUrls(s, prefix)| && RewriteUrls(s, prefix)[m..] == RewriteUrls(s[m..], prefix)
  {
    UrlsKeep(s, prefix);
    CutOneMore(s[0], others, s, n);
    CutOneMore(s[0], RewriteUrls(others, prefix), RewriteUrls(s, prefix), n);
  }

  /** Text that begins with a word without the pass's first letter keeps that many letters. */
  lemma {:induction false} UrlsKeepWord(s: string, prefix: string, word: string)
    requires Begins(s, word) && 'u' !in word
    ensures |RewriteUrls(s, prefix)| >= |word|
    ensures RewriteUrls(s, prefix)[|word|..] == RewriteUrls(s[|word|..], prefix)
    decreases |word|
  {
    if word != "" {
      BeginsRest(s, word);
      assert Lower(s[0]) != 'u' by { assert word[0] in word; }
      assert forall c :: c in word[1..] ==> c in word;
      UrlsKeepWord(s[1..], prefix, word[1..]);
      UrlsKeepLetter(s, s[1..], |word| - 1, |word|, prefix);
    } else {
      CutNone(s);
      CutNone(RewriteUrls(s, prefix));
    }
  }

  /** Where the pass finds nothing, nothing is to be found afterwards. */
  lemma UrlsStayUnmatched(s: string, prefix: string)
    requires s != "" && MatchUrl(s).None?
    ensures MatchUrl(RewriteUrls(s, prefix)).None?
  {
    var out, rest := RewriteUrls(s, prefix), RewriteUrls(s[1..], prefix);
    if Begins(out, "url(") {
      BeginsRest(out, "url(");
      assert out[1..] == rest;
      UrlsBegin(s[1..], prefix, "rl(");
      BeginsFirst(s, "url(");
      UrlsKeepWord(s[1..], prefix, "rl(");
      var w, n := s[4..], Span(Space, s[4..]);
      assert out[4..] == rest[3..] && s[1..][3..] == w;
      UrlsKeepSpaces(w, prefix);
      UrlsKeepRooted(w[n..], prefix);
      MatchUrlIs(s);
      MatchUrlIs(out);
    }
  }

  /** What the pass put in is found again, with the same quote, and its prefix comes off. */
  lemma InsertedComesOff(quote: string, prefix: string, rest: string)
    requires |quote| <= 1 && All(QuoteMark, quote) && Mounts(prefix)
    ensures TakeOffUrls("url(" + quote + prefix + "/" + rest, prefix)
            == "url(" + quote + "/" + TakeOffUrls(rest, prefix)
  {
    var s, t := "url(" + quote + prefix + "/" + rest, prefix + "/" + rest;
    var at, after := 4 + |quote|, 5 + |quote| + |prefix|;
    assert s == "url(" + quote + t;
    InsertedMatches(s, quote, t);
    assert s[at..] == t && s[after..] == rest;
    assert prefix + "/" <= t;
  }

  lemma InsertedMatches(s: string, quote: string, t: string)
    requires |quote| <= 1 && All(QuoteMark, quote) && RootedPath(t) && s == "url(" + quote + t
    ensures MatchUrl(s) == Some(Match(5 + |quote|, quote))
  {
    assert s[..4] == "url(" && s[4..] == quote + t;
    assert LowerAll("url(") == "url(";
    assert Span(Space, s[4..]) == 0;
    if quote != "" { assert s[4] == quote[0] && s[4..5] == quote && s[5] == t[0]; }
  }

  /**
   The prefix comes off every URL that the first pass rewrote, and off no other: what is left is the
   stylesheet as the pass spells it, without the prefix.
   */
  lemma {:induction false} UrlsComeBack(s: string, prefix: string)
    requires Mounts(prefix)
    ensures TakeOffUrls(RewriteUrls(s, prefix), prefix) == RewriteUrls(s, "")
    decreases |s|
  {
    if s != "" {
      var m := MatchUrl(s);
      if m.None? {
        UrlsComeBack(s[1..], prefix);
        UrlsStayUnmatched(s, prefix);
        assert RewriteUrls(s, prefix)[1..] == RewriteUrls(s[1..], prefix);
      } else {
        var rest := s[m.value.length..];
        UrlsComeBack(rest, prefix);
        InsertedComesOff(m.value.quote, prefix, RewriteUrls(rest, prefix));
        assert "url(" + m.value.quote + "" + "/" == "url(" + m.value.quote + "/";
      }
    }
  }

  function TakeOffImports(s: string, prefix: string): string
    decreases |s|
  {
    if s == "" then ""
    else
      var m := MatchImport(s);
      if m.Some? && prefix + "/" <= s[m.value.length - 1..] then
        "@import " + m.value.quote + "/" + TakeOffImports(s[m.value.length + |prefix|..], prefix)
      else [s[0]] + TakeOffImports(s[1..], prefix)
  }

  lemma ImportsKeep(s: string, prefix: string)
    requires s != "" && s[0] != '@'
    ensures RewriteImports(s, prefix) == [s[0]] + RewriteImports(s[1..], prefix)
  {
    if Begins(s, "@import") { BeginsRest(s, "@import"); }
  }

  lemma ImportsKeepPath(s: string, prefix: string)
    ensures RootedPath(RewriteImports(s, prefix)) <==> RootedPath(s)
  {
    if s != "" {
      ImportsHead(s, prefix);
      if s[0] == '/' {
        ImportsKeep(s, prefix);
        if |s| > 1 { ImportsHead(s[1..], prefix); }
      }
    }
  }

  lemma ImportsKeepRooted(s: string, prefix: string)
    ensures Rooted(RewriteImports(s, prefix), true) <==> Rooted(s, true)
  {
    if s != "" {
      ImportsHead(s, prefix);
      if QuoteMark(s[0]) {
        ImportsKeep(s, prefix);
        ImportsKeepPath(s[1..], prefix);
        assert RewriteImports(s, prefix)[1..] == RewriteImports(s[1..], prefix);
      }
    }
  }

  lemma {:induction false} ImportsKeepSpaces(s: string, prefix: string)
    ensures var n := Span(Space, s); var out := RewriteImports(s, prefix);
            n <= |out| && Span(Space, out) == n && out[n..] == RewriteImports(s[n..], prefix)
  {
    if s != "" {
      ImportsHead(s, prefix);
      if Space(s[0]) {
        ImportsKeep(s, prefix);
        ImportsKeepSpaces(s[1..], prefix);
        var n, rest := Span(Space, s[1..]), RewriteImports(s[1..], prefix);
        assert RewriteImports(s, prefix)[1..] == rest;
        assert RewriteImports(s, prefix)[n + 1..] == rest[n..] && s[n + 1..] == s[1..][n..];
      } else {
        assert s[0..] == s && RewriteImports(s, prefix)[0..] == RewriteImports(s, prefix);
      }
    }
  }

  lemma MatchImportIs(s: string)
    ensures MatchImport(s).Some? <==>
              Begins(s, "@import") && Span(Space, s[7..]) > 0 && Rooted(s[7..][Span(Space, s[7..])..], true)
  {
    if Begins(s, "@import") {
      var n := Span(Space, s[7..]);
      RootUrlIs(s, 7 + n, true);
      assert s[7..][n..] == s[7 + n..];
    }
  }

  lemma ImportsKeepLetter(s: string, others: string, n: nat, m: nat, prefix: string)
    requires s != "" && s[0] != '@' && others == s[1..] && n <= |others| && m == n + 1
    requires n <= |RewriteImports(others, prefix)| && RewriteImports(others, prefix)[n..]
             == RewriteImports(others[n..], prefix)
    ensures m <= |RewriteImports(s, prefix)| && RewriteImports(s, prefix)[m..] == RewriteImports(s[m..], prefix)
  {
    ImportsKeep(s, prefix);
    CutOneMore(s[0], others, s, n);
    CutOneMore(s[0], RewriteImports(others, prefix), RewriteImports(s, prefix), n);
  }

  /** Text that begins with a word without the pass's first letter begins with it still. */
  lemma {:induction false} ImportsKeepWord(s: string, prefix: string, word: string)
    requires Begins(s, word) && '@' !in word
    ensures |RewriteImports(s, prefix)| >= |word|
    ensures RewriteImports(s, prefix)[|word|..] == RewriteImports(s[|word|..], prefix)
    decreases |word|
  {
    if word != "" {
      BeginsRest(s, word);
      assert s[0] != '@' by { assert word[0] in word; }
      assert forall c :: c in word[1..] ==> c in word;
      ImportsKeepWord(s[1..], prefix, word[1..]);
      ImportsKeepLetter(s, s[1..], |word| - 1, |word|, prefix);
    } else {
      CutNone(s);
      CutNone(RewriteImports(s, prefix));
    }
  }

  lemma ImportsStayUnmatched(s: string, prefix: string)
    requires s != "" && MatchImport(s).None?
    ensures MatchImport(RewriteImports(s, prefix)).None?
  {
    var out, rest := RewriteImports(s, prefix), RewriteImports(s[1..], prefix);
    if Begins(out, "@import") {
      BeginsRest(out, "@import");
      assert out[1..] == rest;
      ImportsBegin(s[1..], prefix, "import");
      BeginsFirst(s, "@import");
      ImportsKeepWord(s[1..], prefix, "import");
      var w, n := s[7..], Span(Space, s[7..]);
      assert out[7..] == rest[6..] && s[1..][6..] == w;
      ImportsKeepSpaces(w, prefix);
      ImportsKeepRooted(w[n..], prefix);
      MatchImportIs(s);
      MatchImportIs(out);
    }
  }

  lemma InsertedImport(quote: string, prefix: string, rest: string)
    requires |quote| == 1 && All(QuoteMark, quote) && Mounts(prefix)
    ensures MatchImport("@import " + quote + prefix + "/" + rest) == Some(Match(10, quote))
  {
    var s := "@import " + quote + prefix + "/" + rest;
    assert LowerAll(s[..7]) == "@import";
    assert s[9..] == prefix + "/" + rest && s[9] == prefix[0] && s[10] == prefix[1];
    assert s[7..] == " " + (quote + prefix + "/" + rest);
    assert Span(Space, s[7..]) == 1 by { assert s[7..][1..][0] == quote[0] && s[7] == ' '; }
    assert s[8] == quote[0] && s[8..9] == quote;
  }

  lemma ImportedComesOff(quote: string, prefix: string, rest: string)
    requires |quote| == 1 && All(QuoteMark, quote) && Mounts(prefix)
    ensures TakeOffImports("@import " + quote + prefix + "/" + rest, prefix)
         == "@import " + quote + "/" + TakeOffImports(rest, prefix)
  {
    var s := "@import " + quote + prefix + "/" + rest;
    InsertedImport(quote, prefix, rest);
    assert s[9..] == prefix + "/" + rest && s[10 + |prefix|..] == rest;
  }

  /** The same for the second pass. */
  lemma {:induction false} ImportsComeBack(s: string, prefix: string)
    requires Mounts(prefix)
    ensures TakeOffImports(RewriteImports(s, prefix), prefix) == RewriteImports(s, "")
    decreases |s|
  {
    if s != "" {
      var m := MatchImport(s);
      if m.None? {
        ImportsComeBack(s[1..], prefix);
        ImportsStayUnmatched(s, prefix);
        assert RewriteImports(s, prefix)[1..] == RewriteImports(s[1..], prefix);
      } else {
        var rest := s[m.value.length..];
        ImportsComeBack(rest, prefix);
        ImportedComesOff(m.value.quote, prefix, RewriteImports(rest, prefix));
        assert "@import " + m.value.quote + "" + "/" == "@import " + m.value.quote + "/";
      }
    }
  }

  // --- what the passes find ---

  predicate OneOf(c: char, small: char, capital: char) { c == small || c == capital }

  /** The slash of a root-relative path: no slash or backslash follows it. */
  predicate RootSlash(s: string, at: nat) {
    at < |s| && s[at] == '/' && (at + 1 < |s| ==> s[at + 1] != '/' && s[at + 1] != '\\')
  }

  /**
   The text begins with `url(`, whitespace or none, a quote or none, and a root-relative path whose slash is at
   `at`.
   */
  predicate UrlAt(s: string, at: nat) {
    && |s| > 4 && OneOf(s[0], 'u', 'U') && OneOf(s[1], 'r', 'R') && OneOf(s[2], 'l', 'L') && s[3] == '('
    && RootSlash(s, at) && at >= 4
    && (All(Space, s[4..at]) || (at > 4 && QuoteMark(s[at - 1]) && All(Space, s[4..at - 1])))
  }

  /** The text begins with `@import`, whitespace, a quote and a root-relative path whose slash is at `at`. */
  predicate ImportAt(s: string, at: nat) {
    && |s| > 8 && s[0] == '@' && OneOf(s[1], 'i', 'I') && OneOf(s[2], 'm', 'M') && OneOf(s[3], 'p', 'P')
    && OneOf(s[4], 'o', 'O') && OneOf(s[5], 'r', 'R') && OneOf(s[6], 't', 'T')
    && RootSlash(s, at) && at > 8 && QuoteMark(s[at - 1]) && All(Space, s[7..at - 1])
  }

  lemma BeginsUrl(s: string)
    ensures Begins(s, "url(") <==>
              |s| >= 4 && OneOf(s[0], 'u', 'U') && OneOf(s[1], 'r', 'R') && OneOf(s[2], 'l', 'L') && s[3] == '('
  {
    if |s| >= 4 {
      var t := LowerAll(s[..4]);
      assert t[0] == Lower(s[0]) && t[1] == Lower(s[1]) && t[2] == Lower(s[2]) && t[3] == Lower(s[3]);
    }
  }

  lemma BeginsImport(s: string)
    ensures Begins(s, "@import") <==>
              && |s| >= 7 && s[0] == '@' && OneOf(s[1], 'i', 'I') && OneOf(s[2], 'm', 'M') && OneOf(s[3], 'p', 'P')
              && OneOf(s[4], 'o', 'O') && OneOf(s[5], 'r', 'R') && OneOf(s[6], 't', 'T')
  {
    if |s| >= 7 {
      var t := LowerAll(s[..7]);
      assert t[0] == Lower(s[0]) && t[1] == Lower(s[1]) && t[2] == Lower(s[2]) && t[3] == Lower(s[3]);
      assert t[4] == Lower(s[4]) && t[5] == Lower(s[5]) && t[6] == Lower(s[6]);
    }
  }

  /** Whitespace and then something else ends where the span ends. */
  lemma SpanIs(t: string, n: nat)
    requires n < |t| && All(Space, t[..n]) && !Space(t[n])
    ensures Span(Space, t) == n
  {
    forall k | 0 <= k < n ensures Space(t[k]) { assert t[..n][k] == t[k]; }
  }

  lemma SpacesFrom(s: string, from: nat, to: nat)
    requires from <= to < |s| && All(Space, s[from..to]) && !Space(s[to])
    ensures Span(Space, s[from..]) == to - from
  {
    assert s[from..][..to - from] == s[from..to] && s[from..][to - from] == s[to];
    SpanIs(s[from..], to - from);
  }

  lemma SpanSpaces(s: string, from: nat)
    requires from <= |s|
    ensures All(Space, s[from..from + Span(Space, s[from..])])
  {
    var t, n := s[from..], Span(Space, s[from..]);
    assert s[from..from + n] == t[..n];
  }

  /** The first pass finds a URL at the start of a text exactly if one stands there. */
  lemma UrlIsFound(s: string, at: nat)
    ensures UrlAt(s, at) <==> MatchUrl(s).Some? && MatchUrl(s).value.length == at + 1
    ensures UrlAt(s, at) ==> MatchUrl(s).value.quote == if QuoteMark(s[at - 1]) then [s[at - 1]] else ""
  {
    BeginsUrl(s);
    if UrlAt(s, at) {
      if QuoteMark(s[at - 1]) && at > 4 && All(Space, s[4..at - 1]) {
        SpacesFrom(s, 4, at - 1);
        assert s[at - 1..at] == [s[at - 1]];
      } else {
        SpacesFrom(s, 4, at);
        assert at > 4 ==> s[4..at][at - 5] == s[at - 1];
      }
    }
    if MatchUrl(s).Some? && MatchUrl(s).value.length == at + 1 {
      var n := Span(Space, s[4..]);
      SpanSpaces(s, 4);
      assert at == 4 + n || at == 5 + n;
    }
  }

  /** And so does the second pass for imports. */
  lemma ImportIsFound(s: string, at: nat)
    ensures ImportAt(s, at) <==> MatchImport(s).Some? && MatchImport(s).value.length == at + 1
    ensures ImportAt(s, at) ==> MatchImport(s).value.quote == [s[at - 1]]
  {
    BeginsImport(s);
    if ImportAt(s, at) {
      SpacesFrom(s, 7, at - 1);
      assert s[at - 1..at] == [s[at - 1]];
    }
    if MatchImport(s).Some? && MatchImport(s).value.length == at + 1 {
      var n := Span(Space, s[7..]);
      SpanSpaces(s, 7);
      assert at == 8 + n;
    }
  }

  lemma CutConcat(head: string, rest: string, i: nat)
    requires |head| <= i <= |head| + |rest|
    ensures (head + rest)[i..] == rest[i - |head|..]
  {
  }

  /** No `url(` begins within what the pass puts in, but at its start. */
  lemma NoneInside(quote: string, prefix: string, rest: string, i: nat, at: nat)
    requires |quote| <= 1 && All(QuoteMark, quote) && '(' !in prefix
    requires var head := "url(" + quote + prefix + "/"; 0 < i < |head|
    ensures !UrlAt(("url(" + quote + prefix + "/" + rest)[i..], at)
  {
    var head := "url(" + quote + prefix + "/";
    var out := head + rest;
    var t := out[i..];
    if |t| > 4 {
      assert t[0] == out[i] && t[1] == out[i + 1] && t[2] == out[i + 2] && t[3] == out[i + 3];
      if i + 3 < |head| {
        assert head[i + 3] != '(';
      } else {
        assert head[|head| - 1] == '/' && i <= |head| - 1 <= i + 2;
      }
    }
  }

  lemma NoUrlComes(s: string, prefix: string, at: nat)
    requires s != "" && MatchUrl(s).None?
    ensures !UrlAt(RewriteUrls(s, prefix), at)
  {
    UrlIsFound(RewriteUrls(s, prefix), at);
    UrlsStayUnmatched(s, prefix);
  }

  /** A URL that stands at the start of the pass's output is under the prefix. */
  lemma FirstIsMounted(s: string, prefix: string, at: nat)
    requires Mounts(prefix) && s != "" && UrlAt(RewriteUrls(s, prefix), at)
    ensures prefix + "/" <= RewriteUrls(s, prefix)[at..]
  {
    var m := MatchUrl(s);
    if m.None? {
      NoUrlComes(s, prefix, at);
    } else {
      var rest := RewriteUrls(s[m.value.length..], prefix);
      UrlTogether(m.value.quote, prefix, rest);
      MountIsRooted(prefix, rest);
      InsertedStands(RewriteUrls(s, prefix), m.value.quote, prefix + "/" + rest, at);
    }
  }

  lemma UrlTogether(quote: string, prefix: string, rest: string)
    ensures "url(" + quote + prefix + "/" + rest == "url(" + quote + (prefix + "/" + rest)
  {
  }

  lemma MountIsRooted(prefix: string, rest: string)
    requires Mounts(prefix)
    ensures RootedPath(prefix + "/" + rest)
  {
  }

  lemma InsertedStands(out: string, quote: string, t: string, at: nat)
    requires |quote| <= 1 && All(QuoteMark, quote) && RootedPath(t) && out == "url(" + quote + t && UrlAt(out, at)
    ensures out[at..] == t
  {
    InsertedMatches(out, quote, t);
    UrlIsFound(out, at);
  }

  /** After the first pass every root-relative URL in a `url(` begins with the prefix. */
  lemma {:induction false} UrlsAreMounted(s: string, prefix: string, i: nat, t: string, at: nat)
    requires Mounts(prefix) && '(' !in prefix && i <= |RewriteUrls(s, prefix)|
    requires t == RewriteUrls(s, prefix)[i..] && UrlAt(t, at)
    ensures prefix + "/" <= t[at..]
    decreases |s|
  {
    var out, m := RewriteUrls(s, prefix), MatchUrl(s);
    if s == "" {
    } else if i == 0 {
      assert t == out;
      FirstIsMounted(s, prefix, at);
    } else if m.None? {
      CutConcat([s[0]], RewriteUrls(s[1..], prefix), i);
      UrlsAreMounted(s[1..], prefix, i - 1, t, at);
    } else {
      var later := s[m.value.length..];
      var rest := RewriteUrls(later, prefix);
      var head := "url(" + m.value.quote + prefix + "/";
      assert out == head + rest;
      if i < |head| {
        NoneInside(m.value.quote, prefix, rest, i, at);
      } else {
        CutConcat(head, rest, i);
        UrlsAreMounted(later, prefix, i - |head|, t, at);
      }
    }
  }

  lemma NoImportComes(s: string, prefix: string, at: nat)
    requires s != "" && MatchImport(s).None?
    ensures !ImportAt(RewriteImports(s, prefix), at)
  {
    ImportIsFound(RewriteImports(s, prefix), at);
    ImportsStayUnmatched(s, prefix);
  }

  lemma FirstImportIsMounted(s: string, prefix: string, at: nat)
    requires Mounts(prefix) && s != "" && ImportAt(RewriteImports(s, prefix), at)
    ensures prefix + "/" <= RewriteImports(s, prefix)[at..]
  {
    var m := MatchImport(s);
    if m.None? {
      NoImportComes(s, prefix, at);
    } else {
      ImportIsFound(s, m.value.length - 1);
      InsertedImportStands(RewriteImports(s, prefix), m.value.quote, prefix,
                           RewriteImports(s[m.value.length..], prefix), at);
    }
  }

  lemma InsertedImportStands(out: string, quote: string, prefix: string, rest: string, at: nat)
    requires |quote| == 1 && All(QuoteMark, quote) && Mounts(prefix)
    requires out == "@import " + quote + prefix + "/" + rest && ImportAt(out, at)
    ensures out[at..] == prefix + "/" + rest
  {
    InsertedImport(quote, prefix, rest);
    ImportIsFound(out, at);
    assert out[9..] == prefix + "/" + rest;
  }

  /** No import begins within what the pass puts in, but at its start. */
  lemma NoImportInside(quote: string, prefix: string, rest: string, i: nat, at: nat)
    requires |quote| <= 1 && All(QuoteMark, quote) && '@' !in prefix
    requires var head := "@import " + quote + prefix + "/"; 0 < i < |head|
    ensures !ImportAt(("@import " + quote + prefix + "/" + rest)[i..], at)
  {
    var head := "@import " + quote + prefix + "/";
    var out := head + rest;
    if |out[i..]| > 8 { assert out[i..][0] == head[i] && head[i] != '@'; }
  }

  /** After the second pass so does every root-relative import. */
  lemma {:induction false} ImportsAreMounted(s: string, prefix: string, i: nat, t: string, at: nat)
    requires Mounts(prefix) && '@' !in prefix && i <= |RewriteImports(s, prefix)|
    requires t == RewriteImports(s, prefix)[i..] && ImportAt(t, at)
    ensures prefix + "/" <= t[at..]
    decreases |s|
  {
    var out, m := RewriteImports(s, prefix), MatchImport(s);
    if s == "" {
    } else if i == 0 {
      assert t == out;
      FirstImportIsMounted(s, prefix, at);
    } else if m.None? {
      CutConcat([s[0]], RewriteImports(s[1..], prefix), i);
      ImportsAreMounted(s[1..], prefix, i - 1, t, at);
    } else {
      var later := s[m.value.length..];
      var rest := RewriteImports(later, prefix);
      var head := "@import " + m.value.quote + prefix + "/";
      assert out == head + rest;
      if i < |head| {
        NoImportInside(m.value.quote, prefix, rest, i, at);
      } else {
        CutConcat(head, rest, i);
        ImportsAreMounted(later, prefix, i - |head|, t, at);
      }
    }
  }

  // --- both passes ---

  /** Every root-relative URL in a `url(` begins with the prefix. */
  ghost predicate UrlsMounted(s: string, prefix: string) {
    forall i: nat, at: nat {:trigger UrlAt(s[i..], at)} :: i <= |s| && UrlAt(s[i..], at) ==>
          prefix + "/" <= s[i..][at..]
  }

  ghost predicate ImportsMounted(s: string, prefix: string) {
    forall i: nat, at: nat {:trigger ImportAt(s[i..], at)} :: i <= |s| && ImportAt(s[i..], at) ==>
      prefix + "/" <= s[i..][at..]
  }

  lemma MatchedBeginsAt(t: string, prefix: string)
    ensures MatchImport(t).Some? ==> "@" <= RewriteImports(t, prefix)
  {
  }

  /** The second pass leaves text alone up to the first `@`. */
  lemma {:induction false} ImportsAgree(t: string, prefix: string, n: nat)
    requires n <= |RewriteImports(t, prefix)| && '@' !in RewriteImports(t, prefix)[..n]
    ensures n <= |t| && t[..n] == RewriteImports(t, prefix)[..n]
    ensures RewriteImports(t, prefix)[n..] == RewriteImports(t[n..], prefix)
    decreases n
  {
    var out := RewriteImports(t, prefix);
    if n == 0 {
      assert t[0..] == t && out[0..] == out;
    } else {
      assert out[..n][0] == out[0];
      MatchedBeginsAt(t, prefix);
      var rest := RewriteImports(t[1..], prefix);
      assert out[1..] == rest && out[..n] == [t[0]] + rest[..n - 1];
      ImportsAgree(t[1..], prefix, n - 1);
      assert t[..n] == [t[0]] + t[1..][..n - 1] && t[1..][n - 1..] == t[n..] && out[n..] == rest[n - 1..];
    }
  }

  lemma {:induction false} ImportsKeepStart(t: string, prefix: string, word: string)
    requires word <= t && '@' !in word
    ensures word <= RewriteImports(t, prefix)
    decreases |word|
  {
    if word != "" {
      assert t[0] == word[0] && word[0] in word;
      ImportsKeep(t, prefix);
      assert forall c :: c in word[1..] ==> c in word;
      assert word[1..] <= t[1..];
      ImportsKeepStart(t[1..], prefix, word[1..]);
      assert word == [word[0]] + word[1..];
    }
  }

  lemma NoAtInUrl(s: string, at: nat)
    requires UrlAt(s, at)
    ensures at < |s| && '@' !in s[..at + 1]
  {
    forall k | 0 <= k < at + 1 ensures s[k] != '@' {
      if 4 <= k < at - 1 {
        if All(Space, s[4..at]) { assert Space(s[4..at][k - 4]); } else { assert Space(s[4..at - 1][k - 4]); }
      } else if k == at - 1 && k >= 4 && All(Space, s[4..at]) {
        assert Space(s[4..at][k - 4]);
      }
    }
  }

  lemma SameUrl(s: string, t: string, at: nat)
    requires UrlAt(s, at) && at < |t| && t[..at + 1] == s[..at + 1] && RootSlash(t, at)
    ensures UrlAt(t, at)
  {
    assert forall k :: 0 <= k <= at ==> t[..at + 1][k] == t[k] && s[..at + 1][k] == s[k];
    assert s[4..at] == t[4..at] && (at > 4 ==> s[4..at - 1] == t[4..at - 1]);
  }

  /** A URL at the start of the second pass's output stood there before. */
  lemma UrlStoodThere(t: string, prefix: string, at: nat)
    requires UrlAt(RewriteImports(t, prefix), at)
    ensures UrlAt(t, at) && RewriteImports(t, prefix)[at..] == RewriteImports(t[at..], prefix)
  {
    var out := RewriteImports(t, prefix);
    NoAtInUrl(out, at);
    ImportsAgree(t, prefix, at + 1);
    assert out[..at] == out[..at + 1][..at];
    ImportsAgree(t, prefix, at);
    ImportsKeepPath(t[at..], prefix);
    assert RootedPath(out[at..]);
    SameUrl(out, t, at);
  }

  lemma NoUrlInImport(quote: string, prefix: string, rest: string, i: nat, at: nat)
    requires |quote| <= 1 && All(QuoteMark, quote) && '(' !in prefix
    requires i < |"@import " + quote + prefix + "/"|
    ensures !UrlAt(("@import " + quote + prefix + "/" + rest)[i..], at)
  {
    var head := "@import " + quote + prefix + "/";
    var out := head + rest;
    var t := out[i..];
    if |t| > 4 {
      assert t[0] == out[i] && t[1] == out[i + 1] && t[2] == out[i + 2] && t[3] == out[i + 3];
      if i + 3 < |head| { assert head[i + 3] != '('; } else {
        assert head[|head| - 1] == '/' && i <= |head| - 1 <= i + 2;
      }
    }
  }

  lemma MountedRest(s: string, prefix: string, n: nat)
    requires n <= |s| && UrlsMounted(s, prefix)
    ensures UrlsMounted(s[n..], prefix)
  {
    forall i: nat, at: nat | i <= |s[n..]| && UrlAt(s[n..][i..], at) ensures prefix + "/" <= s[n..][i..][at..] {
      assert s[n..][i..] == s[n + i..];
    }
  }

  /** The second pass keeps the URLs of the first under the prefix. */
  lemma {:induction false} ImportsKeepMounted(s: string, prefix: string, i: nat, t: string, at: nat)
    requires Mounts(prefix) && '(' !in prefix && '@' !in prefix && UrlsMounted(s, prefix)
    requires i <= |RewriteImports(s, prefix)| && t == RewriteImports(s, prefix)[i..] && UrlAt(t, at)
    ensures prefix + "/" <= t[at..]
    decreases |s|
  {
    var out, m := RewriteImports(s, prefix), MatchImport(s);
    if s == "" {
    } else if m.None? && i == 0 {
      assert t == out && s[0..] == s;
      UrlStoodThere(s, prefix, at);
      ImportsKeepStart(s[at..], prefix, prefix + "/");
    } else if m.None? {
      CutConcat([s[0]], RewriteImports(s[1..], prefix), i);
      MountedRest(s, prefix, 1);
      ImportsKeepMounted(s[1..], prefix, i - 1, t, at);
    } else {
      var n := m.value.length;
      var rest := RewriteImports(s[n..], prefix);
      var head := "@import " + m.value.quote + prefix + "/";
      assert out == head + rest;
      if i < |head| {
        NoUrlInImport(m.value.quote, prefix, rest, i, at);
      } else {
        CutConcat(head, rest, i);
        MountedRest(s, prefix, n);
        ImportsKeepMounted(s[n..], prefix, i - |head|, t, at);
      }
    }
  }

  /** In a rewritten stylesheet every root-relative URL and import begins with the prefix. */
  lemma StylesheetIsMounted(s: string, prefix: string)
    requires Mounts(prefix) && '(' !in prefix && '@' !in prefix
    ensures UrlsMounted(Rewrite(s, prefix), prefix) && ImportsMounted(Rewrite(s, prefix), prefix)
  {
    var t := RewriteUrls(s, prefix);
    forall i: nat, at: nat | i <= |t| && UrlAt(t[i..], at) ensures prefix + "/" <= t[i..][at..] {
      UrlsAreMounted(s, prefix, i, t[i..], at);
    }
    var out := Rewrite(s, prefix);
    forall i: nat, at: nat | i <= |out| && UrlAt(out[i..], at) ensures prefix + "/" <= out[i..][at..] {
      ImportsKeepMounted(t, prefix, i, out[i..], at);
    }
    forall i: nat, at: nat | i <= |out| && ImportAt(out[i..], at) ensures prefix + "/" <= out[i..][at..] {
      ImportsAreMounted(t, prefix, i, out[i..], at);
    }
  }
}
