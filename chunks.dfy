/**
 * How one space-delimited chunk of the query is taken apart: the exclusion
 * dash, the `name:value` attribute scope and the quoted phrase.
 */
module Chunks {
  import opened Wrappers
  import opened PhpStrings

  /** Strips one leading `-`: the chunk is an exclusion exactly when it starts with one. */
  function SplitExclude(chunk: string): (r: (bool, string))
    requires |chunk| > 0
    ensures r.0 <==> chunk[0] == '-'
    ensures chunk == (if r.0 then "-" else "") + r.1
  {
    if chunk[0] == '-' then (true, chunk[1..]) else (false, chunk)
  }

  /** PCRE's `\w` without the UTF-8 modifier: ASCII letters, digits and `_`. */
  predicate IsWordChar(c: char) {
    'a' <= c <= 'z' || 'A' <= c <= 'Z' || '0' <= c <= '9' || c == '_'
  }

  /** The length of the longest prefix of word characters. */
  function WordPrefix(s: string): (n: nat)
    ensures n <= |s|
    ensures forall i :: 0 <= i < n ==> IsWordChar(s[i])
    ensures n < |s| ==> !IsWordChar(s[n])
  {
    if s == [] || !IsWordChar(s[0]) then 0 else 1 + WordPrefix(s[1..])
  }

  /** Any `n` that ends the leading run of word characters is WordPrefix's answer. */
  lemma WordPrefixUnique(s: string, n: nat)
    requires n <= |s|
    requires forall i :: 0 <= i < n ==> IsWordChar(s[i])
    requires n < |s| ==> !IsWordChar(s[n])
    ensures WordPrefix(s) == n
  {
  }

  /** `s` without one final newline, which PCRE's `$` may stand before. */
  function DropFinalNewline(s: string): string {
    if |s| > 0 && s[|s| - 1] == '\n' then s[..|s| - 1] else s
  }

  /**
   * The match of `^(\w+):(.+)$` against `t`: the attribute name and the value.
   * `.` does not match a newline, and `$` matches at the very end or before a
   * final newline.
   */
  function MatchAttribute(t: string): (r: Option<(string, string)>)
    ensures r.Some? ==>
              var (name, value) := r.value;
              |name| > 0 && (forall i :: 0 <= i < |name| ==> IsWordChar(name[i])) &&
              |value| > 0 && '\n' !in value &&
              (t == name + ":" + value || t == name + ":" + value + "\n")
  {
    var n := WordPrefix(t);
    if 0 < n < |t| && t[n] == ':' then
      var value := DropFinalNewline(t[n + 1..]);
      if |value| > 0 && '\n' !in value then
        assert t == t[..n] + ":" + t[n + 1..];
        Some((t[..n], value))
      else None
    else None
  }

  /** Every string of the form `name:value` matches, with exactly that split. */
  lemma MatchAttributeComplete(t: string, name: string, value: string)
    requires |name| > 0 && forall i :: 0 <= i < |name| ==> IsWordChar(name[i])
    requires |value| > 0 && '\n' !in value
    requires t == name + ":" + value || t == name + ":" + value + "\n"
    ensures MatchAttribute(t) == Some((name, value))
  {
    var tail := if t == name + ":" + value then value else value + "\n";
    assert t == name + ":" + tail;
    ColonSplit(t, name, tail);
    WordPrefixUnique(t, |name|);
    FinalNewlineDropped(value, tail);
  }

  /** The pieces of `name:tail`, read back by position. */
  lemma ColonSplit(t: string, name: string, tail: string)
    requires t == name + ":" + tail
    requires forall i :: 0 <= i < |name| ==> IsWordChar(name[i])
    ensures t[..|name|] == name && t[|name|] == ':' && t[|name| + 1..] == tail
    ensures forall i :: 0 <= i < |name| ==> IsWordChar(t[i])
    ensures !IsWordChar(':')
  {
    assert forall i :: 0 <= i < |name| ==> t[i] == name[i];
  }

  /** A value without newlines, with or without one newline after it, loses just that newline. */
  lemma FinalNewlineDropped(value: string, tail: string)
    requires |value| > 0 && '\n' !in value
    requires tail == value || tail == value + "\n"
    ensures DropFinalNewline(tail) == value
  {
    if tail == value {
      assert value[|value| - 1] in value;
    } else {
      assert tail[..|tail| - 1] == value;
    }
  }

  /** A string without a colon is never attribute-scoped. */
  lemma NoColonNoAttribute(t: string)
    ensures ':' !in t ==> MatchAttribute(t) == None
  {
    var r := MatchAttribute(t);
    if r.Some? {
      assert t[|r.value.0|] == ':';
    }
  }

  /** The characters `strpos('"\'', ...)` accepts as an opening quote. */
  predicate IsQuote(c: char) {
    c == '"' || c == '\''
  }

  /**
   * The search phrase of the working text `value`, and what is left of the
   * query after it. A quote `q` at the start is closed either by the last
   * character of this same chunk, or by the next `q` further on in the query,
   * read with strtok using `q` as the delimiter (so the phrase may cover any
   * number of spaces); a missing closing quote reads to the end.
   */
  function ExtractPhrase(value: string, rest: string): (r: (string, string))
    requires |value| > 0
    ensures |r.1| <= |rest|
    ensures !IsQuote(value[0]) ==> r == (value, rest)
    ensures IsQuote(value[0]) && value[|value| - 1] == value[0] ==>
              r.1 == rest &&
              (if |value| == 1 then r.0 == "" else value == [value[0]] + r.0 + [value[0]])
    ensures IsQuote(value[0]) && value[|value| - 1] != value[0] ==>
              match NextChunk(rest, value[0])
              case None => r == (value[1..] + " ", "")
              case Some((closing, after)) => r == (value[1..] + " " + closing, after)
  {
    var q := value[0];
    if IsQuote(q) then
      if value[|value| - 1] == q then
        if |value| == 1 then ("", rest)
        else
          assert value == [q] + value[1..|value| - 1] + [q];
          (value[1..|value| - 1], rest)
      else
        match NextChunk(rest, q)
        case None => (value[1..] + " ", "")
        case Some((closing, after)) =>
          (value[1..] + " " + closing, after)
    else (value, rest)
  }

  /**
   * A phrase opened by `q` in one chunk and closed by the next `q` further on
   * is reassembled whole, however many spaces the closing part holds.
   */
  lemma QuotedPhraseSpansChunks(q: char, first: string, closing: string, after: string)
    requires IsQuote(q)
    requires |first| > 0 && q !in first
    requires |closing| > 0 && q !in closing
    ensures ExtractPhrase([q] + first, closing + [q] + after) == (first + " " + closing, after)
  {
    var value := [q] + first;
    assert value[|value| - 1] == first[|first| - 1];
    assert first[|first| - 1] in first;
    NextChunkWord(closing, [q] + after, q);
    assert closing + [q] + after == closing + ([q] + after);
    assert DropOne([q] + after) == after;
    assert value[1..] == first;
  }

  /** An opening quote that is never closed takes the whole rest of the query. */
  lemma UnterminatedQuoteTakesRest(q: char, first: string, rest: string)
    requires IsQuote(q)
    requires |first| > 0 && q !in first
    requires q !in rest
    ensures ExtractPhrase([q] + first, rest) == (first + " " + rest, "")
  {
    var value := [q] + first;
    assert value[|value| - 1] == first[|first| - 1];
    assert first[|first| - 1] in first;
    assert value[1..] == first;
    if rest == [] {
      assert first + " " + rest == first + " ";
    } else {
      NextChunkWord(rest, [], q);
      assert rest + [] == rest;
    }
  }
}
