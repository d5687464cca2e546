/**
 * The reference definition of SearchQuery's parse, over the part of the query
 * that strtok has not consumed yet. Step is one pass of the parse loop; ParseRest
 * runs Step until strtok has nothing left or a trailing `OR` stops the loop.
 */
module Tokenizer {
  import opened Wrappers
  import opened PhpStrings
  import opened Terms
  import opened Chunks

  /**
   * StringHelper::normalizeKeywords(text, ignoreWords): case folding, diacritic
   * stripping and removal of ignored words; not part of this model.
   */
  type Normalizer = (string, seq<string>) -> string

  /** The stop words the source starts from, before normalization. */
  const DefaultStopwords: seq<string> := ["it's", "able", "about", "above", "according"]

  /** The shortest word a full-text index holds, in bytes. */
  const FtMinWordLen: nat := 4

  /**
   * What one parse works with: the normalizer, the configured ignore words,
   * the (already normalized) stop words and the minimum full-text word length.
   */
  datatype Options = Options(
    normalize: Normalizer,
    ignoreWords: seq<string>,
    stopwords: seq<string>,
    minWordLen: nat)

  /** `array_map` of the one-argument normalizer over a word list. */
  function NormalizeStopwords(normalize: Normalizer, words: seq<string>): seq<string> {
    seq(|words|, i requires 0 <= i < |words| => normalize(words[i], []))
  }

  /** The options SearchQuery's constructor sets up. */
  function DefaultOptions(normalize: Normalizer, ignoreWords: seq<string>): Options {
    Options(normalize, ignoreWords, NormalizeStopwords(normalize, DefaultStopwords), FtMinWordLen)
  }

  /** A term the full-text index can serve: long enough and not a stop word. */
  predicate Eligible(text: string, opts: Options) {
    ByteLength(text) >= opts.minWordLen && text !in opts.stopwords
  }

  /**
   * Steps 3 to 5 for one chunk whose dash (if any) is already stripped: the
   * attribute scope, the phrase, normalization and the falsy check. Returns
   * the term (None when it is dropped) and what is left of the query.
   */
  function Classify(exclude: bool, body: string, rest: string, opts: Options): (r: (Option<Term>, string))
    requires |body| > 0
    ensures |r.1| <= |rest|
    ensures r.0.Some? ==> r.0.value.exclude == exclude && Truthy(r.0.value.text)
    ensures r.0.Some? ==> (r.0.value.attribute.Some? <==> MatchAttribute(body).Some?)
    ensures r.0.Some? && r.0.value.attribute.Some? ==> r.0.value.attribute.value == MatchAttribute(body).value.0
    ensures var value := if MatchAttribute(body).Some? then MatchAttribute(body).value.1 else body;
            var (phrase, rest') := ExtractPhrase(value, rest);
            r.1 == rest' &&
            (r.0.Some? <==> Truthy(opts.normalize(phrase, opts.ignoreWords))) &&
            (r.0.Some? ==> r.0.value.text == opts.normalize(phrase, opts.ignoreWords))
  {
    var (attribute, value) :=
      match MatchAttribute(body)
      case Some((name, v)) => (Some(name), v)
      case None => (None, body);
    var (phrase, rest') := ExtractPhrase(value, rest);
    var text := opts.normalize(phrase, opts.ignoreWords);
    if Truthy(text) then (Some(Term(exclude, attribute, text)), rest') else (None, rest')
  }

  /**
   * One chunk, steps 2 to 5: a leading dash marks an exclusion; a bare dash
   * (or a dash before a falsy remainder) is dropped at once.
   */
  function ProcessChunk(chunk: string, rest: string, opts: Options): (r: (Option<Term>, string))
    requires |chunk| > 0
    ensures |r.1| <= |rest|
    ensures r.0.Some? ==> Truthy(r.0.value.text)
    ensures r.0.Some? ==> (r.0.value.exclude <==> chunk[0] == '-')
    ensures chunk[0] == '-' && !Truthy(chunk[1..]) ==> r == (None, rest)
    ensures chunk[0] == '-' && Truthy(chunk[1..]) ==> r == Classify(true, chunk[1..], rest, opts)
    ensures chunk[0] != '-' ==> r == Classify(false, chunk, rest, opts)
  {
    var (exclude, body) := SplitExclude(chunk);
    if exclude && !Truthy(body) then (None, rest)
    else Classify(exclude, body, rest, opts)
  }

  /** Turns the last token into a group of its terms (a group stays as it is). */
  function WrapLast(toks: seq<Token>): (r: seq<Token>)
    requires |toks| > 0
    ensures |r| == |toks| && r[..|r| - 1] == toks[..|toks| - 1]
    ensures r[|r| - 1] == Group(TermsOf(toks[|toks| - 1]))
  {
    toks[|toks| - 1 := Group(TermsOf(toks[|toks| - 1]))]
  }

  /** Wrapping is what the source does: a single term becomes a group of one, a group is left alone. */
  lemma WrapLastCases(toks: seq<Token>)
    requires |toks| > 0
    ensures toks[|toks| - 1].Group? ==> WrapLast(toks) == toks
    ensures toks[|toks| - 1].Single? ==>
              WrapLast(toks) == toks[|toks| - 1 := Group([toks[|toks| - 1].term])]
  {
    var n := |toks|;
    if toks[n - 1].Group? {
      assert WrapLast(toks)[n - 1] == toks[n - 1];
      assert forall i :: 0 <= i < n ==> WrapLast(toks)[i] == toks[i];
    }
  }

  /** Adds a term at the end of the last token, which becomes (or stays) a group. */
  function AppendToLast(toks: seq<Token>, t: Term): (r: seq<Token>)
    requires |toks| > 0
    ensures |r| == |toks| && r[..|r| - 1] == toks[..|toks| - 1]
    ensures r[|r| - 1] == Group(TermsOf(toks[|toks| - 1]) + [t])
  {
    toks[|toks| - 1 := Group(TermsOf(toks[|toks| - 1]) + [t])]
  }

  /**
   * Steps 2 to 7 for a chunk the loop has read: classify it, update the
   * full-text flag and emit the term, into the last group when `append`.
   */
  function Absorb(chunk: string, rest: string, toks: seq<Token>, ft: bool, append: bool, opts: Options)
    : (r: (string, seq<Token>, bool))
    requires |chunk| > 0 && (append ==> |toks| > 0)
    ensures |r.0| <= |rest|
  {
    var (term, rest') := ProcessChunk(chunk, rest, opts);
    match term
    case None => (rest', toks, ft)
    case Some(t) =>
      (rest',
       if append then AppendToLast(toks, t) else toks + [Single(t)],
       ft && Eligible(t.text, opts))
  }

  /** Absorb by cases: a dropped chunk leaves tokens and flag alone; a kept one is emitted. */
  lemma AbsorbCases(chunk: string, rest: string, toks: seq<Token>, ft: bool, append: bool, opts: Options,
                    term: Option<Term>, rest': string)
    requires |chunk| > 0 && (append ==> |toks| > 0)
    requires ProcessChunk(chunk, rest, opts) == (term, rest')
    ensures term.None? ==> Absorb(chunk, rest, toks, ft, append, opts) == (rest', toks, ft)
    ensures term.Some? && append ==>
              Absorb(chunk, rest, toks, ft, append, opts) ==
              (rest', AppendToLast(toks, term.value), ft && Eligible(term.value.text, opts))
    ensures term.Some? && !append ==>
              Absorb(chunk, rest, toks, ft, append, opts) ==
              (rest', toks + [Single(term.value)], ft && Eligible(term.value.text, opts))
  {
  }

  /**
   * One pass of the parse loop on the unread query `rest`, or None when the
   * loop ends there: strtok found no chunk, or an `OR` had no chunk after it.
   * After an `OR` the previous token is made a group before the next chunk is
   * looked at, so a dropped chunk still leaves the group behind.
   */
  function Step(rest: string, toks: seq<Token>, ft: bool, opts: Options): (r: Option<(string, seq<Token>, bool)>)
    ensures r.Some? ==> |r.value.0| < |rest|
  {
    match NextChunk(rest, ' ')
    case None => None
    case Some((chunk, rest1)) =>
      if chunk == "OR" then
        match NextChunk(rest1, ' ')
        case None => None
        case Some((operand, rest2)) =>
          if |toks| > 0 then Some(Absorb(operand, rest2, WrapLast(toks), ft, true, opts))
          else Some(Absorb(operand, rest2, toks, ft, false, opts))
      else Some(Absorb(chunk, rest1, toks, ft, false, opts))
  }

  /** A pass that reads a chunk other than `OR` absorbs that chunk. */
  lemma StepReadsChunk(rest: string, toks: seq<Token>, ft: bool, opts: Options, chunk: string, rest1: string)
    requires NextChunk(rest, ' ') == Some((chunk, rest1)) && chunk != "OR"
    ensures Step(rest, toks, ft, opts) == Some(Absorb(chunk, rest1, toks, ft, false, opts))
  {
  }

  /**
   * A pass that reads `OR` and then a chunk absorbs that chunk: into a group
   * made of the previous token when there is one, as a token of its own
   * otherwise.
   */
  lemma StepReadsOr(rest: string, toks: seq<Token>, ft: bool, opts: Options, rest1: string,
                    operand: string, rest2: string, toks': seq<Token>, append: bool)
    requires NextChunk(rest, ' ') == Some(("OR", rest1))
    requires NextChunk(rest1, ' ') == Some((operand, rest2))
    requires append == (|toks| > 0)
    requires toks' == if append then WrapLast(toks) else toks
    ensures |operand| > 0 && (append ==> |toks'| > 0)
    ensures Step(rest, toks, ft, opts) == Some(Absorb(operand, rest2, toks', ft, append, opts))
  {
  }

  /** A pass that reads `OR` and then nothing ends the loop. */
  lemma StepStopsAtLastOr(rest: string, toks: seq<Token>, ft: bool, opts: Options, rest1: string)
    requires NextChunk(rest, ' ') == Some(("OR", rest1))
    requires NextChunk(rest1, ' ') == None
    ensures Step(rest, toks, ft, opts) == None
  {
  }

  /** The tokens and the full-text flag once the loop has run to its end. */
  function ParseRest(rest: string, toks: seq<Token>, ft: bool, opts: Options): (seq<Token>, bool)
    decreases |rest|
  {
    match Step(rest, toks, ft, opts)
    case None => (toks, ft)
    case Some((rest', toks', ft')) => ParseRest(rest', toks', ft', opts)
  }

  /** When a pass ends the loop, the parse result is what the pass started from. */
  lemma ParseRestStops(rest: string, toks: seq<Token>, ft: bool, opts: Options)
    requires Step(rest, toks, ft, opts).None?
    ensures ParseRest(rest, toks, ft, opts) == (toks, ft)
  {
  }

  /** A pass that continues the loop leaves the parse result unchanged. */
  lemma ParseRestContinues(rest: string, toks: seq<Token>, ft: bool, opts: Options, pass: (string, seq<Token>, bool))
    requires Step(rest, toks, ft, opts) == Some(pass)
    ensures ParseRest(rest, toks, ft, opts) == ParseRest(pass.0, pass.1, pass.2, opts)
  {
  }

  /** The parse of a whole query: no tokens yet, the flag still true. */
  function Tokenize(query: string, opts: Options): (seq<Token>, bool) {
    ParseRest(query, [], true, opts)
  }
}
