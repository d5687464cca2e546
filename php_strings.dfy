/**
 * The PHP string built-ins the tokenizer relies on: truthiness of a string,
 * `strlen` (a byte count) and `strtok` (a tokenizer with a hidden cursor).
 *
 * Strings are sequences of Unicode characters; the PHP string they stand for
 * is their UTF-8 encoding.
 */
module PhpStrings {
  import opened Wrappers

  /** PHP's `(bool)$s` for a string: only "" and "0" are falsy. */
  predicate Truthy(s: string) {
    s != "" && s != "0"
  }

  /** Number of bytes in the UTF-8 encoding of one character. */
  function Utf8Width(c: char): (n: nat)
    ensures 1 <= n <= 4
    ensures n == 1 <==> (c as int) < 0x80
  {
    if (c as int) < 0x80 then 1
    else if (c as int) < 0x800 then 2
    else if (c as int) < 0x1_0000 then 3
    else 4
  }

  /** PHP's `strlen`: the byte length of the UTF-8 encoding. */
  function ByteLength(s: string): (n: nat)
    ensures |s| <= n <= 4 * |s|
    ensures (forall i :: 0 <= i < |s| ==> (s[i] as int) < 0x80) ==> n == |s|
  {
    if s == [] then 0 else Utf8Width(s[0]) + ByteLength(s[1..])
  }

  /** The number of leading copies of `d` in `s`. */
  function SkipCount(s: string, d: char): (n: nat)
    ensures n <= |s|
    ensures forall i :: 0 <= i < n ==> s[i] == d
    ensures n < |s| ==> s[n] != d
  {
    if s == [] || s[0] != d then 0 else 1 + SkipCount(s[1..], d)
  }

  /** The length of the longest prefix of `s` that does not contain `d`. */
  function RunLength(s: string, d: char): (n: nat)
    ensures n <= |s|
    ensures forall i :: 0 <= i < n ==> s[i] != d
    ensures n < |s| ==> s[n] == d
  {
    if s == [] || s[0] == d then 0 else 1 + RunLength(s[1..], d)
  }

  /** Any `n` that delimits the leading run of `d` is SkipCount's answer. */
  lemma SkipCountUnique(s: string, d: char, n: nat)
    requires n <= |s|
    requires forall i :: 0 <= i < n ==> s[i] == d
    requires n < |s| ==> s[n] != d
    ensures SkipCount(s, d) == n
  {
  }

  /** Any `n` that ends the leading `d`-free run is RunLength's answer. */
  lemma RunLengthUnique(s: string, d: char, n: nat)
    requires n <= |s|
    requires forall i :: 0 <= i < n ==> s[i] != d
    requires n < |s| ==> s[n] == d
    ensures RunLength(s, d) == n
  {
  }

  /** What is left after stepping past one delimiter, if there is one. */
  function DropOne(s: string): string {
    if s == [] then [] else s[1..]
  }

  /**
   * One call of PHP's `strtok` with the one-character delimiter `d`, on the
   * not yet consumed part `s` of the string: skip the leading delimiters,
   * return the maximal run of non-delimiters and step past the one delimiter
   * that ends it. None stands for `false`, returned once only delimiters are
   * left; PHP then forgets the string, so nothing remains to be read.
   */
  function NextChunk(s: string, d: char): (r: Option<(string, string)>)
    ensures r.Some? ==> |r.value.0| > 0 && d !in r.value.0 && |r.value.1| < |s|
  {
    var k := SkipCount(s, d);
    if k == |s| then None
    else
      var n := RunLength(s[k..], d);
      assert n > 0;
      Some((s[k..k + n], DropOne(s[k + n..])))
  }

  /**
   * What strtok promises: `false` exactly when only delimiters are left;
   * otherwise the chunk is the run that follows the leading delimiters, and
   * what is left starts after the delimiter that ends it.
   */
  lemma NextChunkSpec(s: string, d: char)
    ensures NextChunk(s, d).None? <==> forall i :: 0 <= i < |s| ==> s[i] == d
    ensures NextChunk(s, d).Some? ==>
              var (chunk, rest) := NextChunk(s, d).value;
              var k := SkipCount(s, d);
              k + |chunk| <= |s| && s[k..k + |chunk|] == chunk &&
              (if k + |chunk| == |s| then rest == []
               else s[k + |chunk|] == d && rest == s[k + |chunk| + 1..])
  {
    var k := SkipCount(s, d);
    if k < |s| {
      var n := RunLength(s[k..], d);
      assert s[k] != d;
    }
  }

  /**
   * A chunk `w` after some delimiters and before a delimiter (or the end)
   * is what strtok returns next, and it leaves what follows that delimiter.
   */
  lemma NextChunkAt(pre: string, w: string, tail: string, d: char)
    requires forall i :: 0 <= i < |pre| ==> pre[i] == d
    requires |w| > 0 && d !in w
    requires tail == [] || tail[0] == d
    ensures NextChunk(pre + w + tail, d) == Some((w, DropOne(tail)))
  {
    var s := pre + w + tail;
    SkipCountUnique(s, d, |pre|);
    assert s[|pre|..] == w + tail;
    RunLengthUnique(w + tail, d, |w|);
    assert s[|pre|..|pre| + |w|] == w;
    assert s[|pre| + |w|..] == tail;
  }

  /** The shape of NextChunkAt used most: no delimiters in front. */
  lemma NextChunkWord(w: string, tail: string, d: char)
    requires |w| > 0 && d !in w
    requires tail == [] || tail[0] == d
    ensures NextChunk(w + tail, d) == Some((w, DropOne(tail)))
  {
    NextChunkAt([], w, tail, d);
    assert [] + w + tail == w + tail;
  }
}
