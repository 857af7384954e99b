/** Characters and spans of characters, as the proxy's regular expressions see them. */
module Chars {
  /** The whitespace of a regular expression's `\s`. */
  predicate Space(c: char) {
    var n := c as int;
    9 <= n <= 13 || n == 32 || n == 0xA0 || n == 0x1680 || 0x2000 <= n <= 0x200A || n == 0x2028 || n == 0x2029
    || n == 0x202F || n == 0x205F || n == 0x3000 || n == 0xFEFF
  }

  predicate Letter(c: char) { 'a' <= c <= 'z' || 'A' <= c <= 'Z' }
  predicate QuoteMark(c: char) { c == '"' || c == '\'' }

  function Lower(c: char): char { if 'A' <= c <= 'Z' then (c as int + 32) as char else c }

  function LowerAll(s: string): (r: string)
    ensures |r| == |s| && forall k :: 0 <= k < |s| ==> r[k] == Lower(s[k])
  {
    seq(|s|, k requires 0 <= k < |s| => Lower(s[k]))
  }

  /** The text begins with the word, in whatever case. */
  predicate Begins(s: string, word: string) { |word| <= |s| && LowerAll(s[..|word|]) == word }

  /** The number of leading characters that satisfy `p`. */
  function Span(p: char -> bool, s: string): (n: nat)
    ensures n <= |s| && (forall k :: 0 <= k < n ==> p(s[k])) && (n < |s| ==> !p(s[n]))
  {
    if s == "" || !p(s[0]) then 0 else 1 + Span(p, s[1..])
  }

  predicate All(p: char -> bool, s: string) { forall k :: 0 <= k < |s| ==> p(s[k]) }

  lemma Assoc(a: string, b: string, c: string)
    ensures a + b + c == a + (b + c)
  {
  }

  /** Text at which a span ends. */
  predicate Stops(p: char -> bool, s: string) { s == "" || !p(s[0]) }

  lemma {:induction false} SpanOf(p: char -> bool, a: string, b: string)
    requires All(p, a) && Stops(p, b)
    ensures Span(p, a + b) == |a| && (a + b)[..|a|] == a && (a + b)[|a|..] == b
  {
    if a == "" {
      assert a + b == b;
    } else {
      SpanOf(p, a[1..], b);
      assert (a + b)[1..] == a[1..] + b;
    }
  }

  /** The same word but for the case of ASCII letters. */
  predicate Spells(s: string, word: string) {
    |s| == |word| && forall k :: 0 <= k < |s| ==>
          s[k] == word[k] || ('A' <= s[k] <= 'Z' && s[k] as int + ('a' as int - 'A' as int) == word[k] as int)
  }

  predicate SpellsOne(s: string, words: set<string>) { exists word :: word in words && Spells(s, word) }

  lemma LowerSpells(s: string, word: string)
    requires forall k :: 0 <= k < |word| ==> !('A' <= word[k] <= 'Z')
    ensures LowerAll(s) == word <==> Spells(s, word)
  {
    if LowerAll(s) == word {
      forall k | 0 <= k < |s| ensures Lower(s[k]) == word[k] { assert LowerAll(s)[k] == Lower(s[k]); }
    }
    if Spells(s, word) {
      forall k | 0 <= k < |s| ensures LowerAll(s)[k] == word[k] {}
    }
  }

  lemma LowerSpellsOne(s: string, words: set<string>)
    requires forall word, k :: word in words && 0 <= k < |word| ==> !('A' <= word[k] <= 'Z')
    ensures LowerAll(s) in words <==> SpellsOne(s, words)
  {
    if LowerAll(s) in words { LowerSpells(s, LowerAll(s)); }
    if SpellsOne(s, words) {
      var word :| word in words && Spells(s, word);
      LowerSpells(s, word);
    }
  }
}
