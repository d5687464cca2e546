/**
 * The SearchQuery class: it parses its query once, when it is constructed,
 * into a list of tokens and a flag saying whether a full-text index can serve
 * the whole query.
 */
module Search {
  import opened Wrappers
  import opened PhpStrings
  import opened Terms
  import opened Chunks
  import opened Tokenizer
  import opened TokenizerProperties

  class SearchQuery {
    const query: string
    /** The keyword normalizer and the configured ignore words it is given. */
    const normalize: Normalizer
    const ignoreWords: seq<string>
    const ftMinWordLen: nat := FtMinWordLen

    var tokens: seq<Token>
    var fulltext: bool
    var ftStopwords: seq<string>
    /** strtok's hidden position in `query`. */
    var cursor: nat

    /** The options the parse of this query runs with. */
    function ParseOptions(): Options
      reads this`ftStopwords
    {
      Options(normalize, ignoreWords, ftStopwords, ftMinWordLen)
    }

    /** A constructed query: stop words normalized and the query parsed. */
    ghost predicate Valid()
      reads this
    {
      cursor <= |query| &&
      ftStopwords == NormalizeStopwords(normalize, DefaultStopwords) &&
      (tokens, fulltext) == Tokenize(query, ParseOptions())
    }

    constructor (query: string, normalize: Normalizer, ignoreWords: seq<string>)
      ensures this.query == query && this.normalize == normalize && this.ignoreWords == ignoreWords
      ensures Valid()
      ensures ParseOptions() == DefaultOptions(normalize, ignoreWords)
      ensures fulltext <==> AllEligible(Flatten(tokens), ParseOptions())
    {
      this.query := query;
      this.normalize := normalize;
      this.ignoreWords := ignoreWords;
      tokens := [];
      fulltext := true;
      ftStopwords := DefaultStopwords;
      cursor := 0;
      new;
      ftStopwords := NormalizeStopwords(normalize, ftStopwords);
      Parse();
      TokenizeInvariants(query, ParseOptions());
    }

    /** The parsed tokens: every term has a truthy text and no group is empty. */
    function GetTokens(): (r: seq<Token>)
      reads this
      requires Valid()
      ensures r == Tokenize(query, ParseOptions()).0
      ensures AllTruthy(Flatten(r)) && GroupsNonEmpty(r)
    {
      TokenizeInvariants(query, ParseOptions());
      tokens
    }

    /**
     * PHP's `strtok` with delimiter `d`, continuing at `cursor`: skip the
     * delimiters, return the run up to the next one and step past it. When
     * nothing but delimiters is left the string is used up.
     */
    method Strtok(d: char) returns (chunk: Option<string>)
      requires cursor <= |query|
      modifies this`cursor
      ensures cursor <= |query|
      ensures match NextChunk(old(query[cursor..]), d)
              case None => chunk.None? && cursor == |query|
              case Some((c, rest)) => chunk == Some(c) && query[cursor..] == rest
    {
      ghost var s := query[cursor..];
      var p := cursor;
      while p < |query| && query[p] == d
        invariant cursor <= p <= |query|
        invariant forall i :: cursor <= i < p ==> query[i] == d
      {
        p := p + 1;
      }
      if p == |query| {
        assert forall i :: 0 <= i < |s| ==> s[i] == query[cursor + i];
        cursor := |query|;
        return None;
      }
      var e := p + 1;
      while e < |query| && query[e] != d
        invariant p < e <= |query|
        invariant forall i :: p <= i < e ==> query[i] != d
      {
        e := e + 1;
      }
      chunk := Some(query[p..e]);
      assert s == query[cursor..p] + query[p..e] + query[e..];
      NextChunkAt(query[cursor..p], query[p..e], query[e..], d);
      cursor := if e < |query| then e + 1 else |query|;
      assert DropOne(query[e..]) == query[cursor..];
    }

    /**
     * The quoted-phrase step for the working text `value`: a quote closed in
     * this chunk is stripped; otherwise strtok, with the quote as delimiter,
     * reads on to the closing quote.
     */
    method ReadPhrase(value: string) returns (phrase: string)
      requires |value| > 0 && cursor <= |query|
      modifies this`cursor
      ensures cursor <= |query|
      ensures (phrase, query[cursor..]) == ExtractPhrase(value, old(query[cursor..]))
    {
      if IsQuote(value[0]) {
        if value[|value| - 1] == value[0] {
          phrase := if |value| == 1 then "" else value[1..|value| - 1];
        } else {
          var closing := Strtok(value[0]);
          if closing.Some? {
            phrase := value[1..] + " " + closing.value;
          } else {
            phrase := value[1..] + " ";
            assert query[cursor..] == "";
          }
        }
      } else {
        phrase := value;
      }
    }

    /**
     * Steps 2 to 5 of one pass, for the chunk the loop has read: strip the
     * exclusion dash, split off the attribute, read the phrase and normalize
     * it. None is the source's `continue`: a bare dash or a falsy text.
     */
    method ReadTerm(chunk: string) returns (term: Option<Term>)
      requires |chunk| > 0 && cursor <= |query|
      modifies this`cursor
      ensures cursor <= |query|
      ensures (term, query[cursor..]) == ProcessChunk(chunk, old(query[cursor..]), ParseOptions())
    {
      ghost var rest := query[cursor..];
      var (exclude, body) := SplitExclude(chunk);
      if exclude && !Truthy(body) {
        return None;
      }
      assert ProcessChunk(chunk, rest, ParseOptions()) == Classify(exclude, body, rest, ParseOptions());
      var attribute: Option<string>;
      var value: string;
      match MatchAttribute(body) {
        case Some((name, v)) =>
          attribute, value := Some(name), v;
        case None =>
          attribute, value := None, body;
      }
      var phrase := ReadPhrase(value);
      var text := normalize(phrase, ignoreWords);
      term := if Truthy(text) then Some(Term(exclude, attribute, text)) else None;
    }

    /**
     * Steps 6 and 7: clear the full-text flag for a short word or a stop word,
     * and emit the term, into the last group when `appendToPrevious`.
     */
    method Emit(term: Term, appendToPrevious: bool)
      requires appendToPrevious ==> |tokens| > 0 && tokens[|tokens| - 1].Group?
      modifies this`tokens, this`fulltext
      ensures fulltext == (old(fulltext) && Eligible(term.text, ParseOptions()))
      ensures tokens == if appendToPrevious then AppendToLast(old(tokens), term) else old(tokens) + [Single(term)]
    {
      if fulltext && (ByteLength(term.text) < ftMinWordLen || term.text in ftStopwords) {
        fulltext := false;
      }
      if appendToPrevious {
        tokens := tokens[|tokens| - 1 := Group(tokens[|tokens| - 1].terms + [term])];
      } else {
        tokens := tokens + [Single(term)];
      }
    }

    /** Steps 2 to 7 of one pass, for the chunk the loop has read. */
    method AbsorbChunk(chunk: string, appendToPrevious: bool)
      requires |chunk| > 0 && cursor <= |query|
      requires appendToPrevious ==> |tokens| > 0 && tokens[|tokens| - 1].Group?
      modifies this`tokens, this`fulltext, this`cursor
      ensures cursor <= |query|
      ensures (query[cursor..], tokens, fulltext) ==
              Absorb(chunk, old(query[cursor..]), old(tokens), old(fulltext), appendToPrevious, ParseOptions())
    {
      ghost var rest, toks, ft := query[cursor..], tokens, fulltext;
      var term := ReadTerm(chunk);
      AbsorbCases(chunk, rest, toks, ft, appendToPrevious, ParseOptions(), term, query[cursor..]);
      if term.Some? {
        Emit(term.value, appendToPrevious);
      }
    }

    /** Makes the previous token a group, if it is not one already. */
    method GroupLast()
      requires |tokens| > 0
      modifies this`tokens
      ensures tokens == WrapLast(old(tokens)) && tokens[|tokens| - 1].Group?
    {
      WrapLastCases(tokens);
      var total := |tokens|;
      if !tokens[total - 1].Group? {
        tokens := tokens[total - 1 := Group([tokens[total - 1].term])];
      }
    }

    /**
     * One pass of the parse loop: read a chunk (after an `OR`, the chunk
     * after it, grouping the previous token first) and absorb it. Returns
     * false when the loop ends instead.
     */
    method ParsePass() returns (more: bool)
      requires cursor <= |query|
      modifies this`tokens, this`fulltext, this`cursor
      ensures cursor <= |query|
      ensures Step(old(query[cursor..]), old(tokens), old(fulltext), ParseOptions()) ==
              if more then Some((query[cursor..], tokens, fulltext)) else None
      ensures !more ==> tokens == old(tokens) && fulltext == old(fulltext)
    {
      ghost var rest0, opts := query[cursor..], ParseOptions();
      var token := Strtok(' ');
      if token.None? {
        return false;
      }
      var chunk := token.value;
      if chunk == "OR" {
        ghost var rest1 := query[cursor..];
        token := Strtok(' ');
        if token.None? {
          StepStopsAtLastOr(rest0, tokens, fulltext, opts, rest1);
          return false;
        }
        chunk := token.value;
        ghost var toks0 := tokens;
        var appendToPrevious := |tokens| > 0;
        if appendToPrevious {
          GroupLast();
        }
        StepReadsOr(rest0, toks0, fulltext, opts, rest1, chunk, query[cursor..], tokens, appendToPrevious);
        AbsorbChunk(chunk, appendToPrevious);
      } else {
        StepReadsChunk(rest0, tokens, fulltext, opts, chunk, query[cursor..]);
        AbsorbChunk(chunk, false);
      }
      return true;
    }

    /**
     * The parse loop: strtok starts over on the whole query, and passes run
     * until one ends the loop.
     */
    method Parse()
      requires cursor <= |query|
      modifies this`tokens, this`fulltext, this`cursor
      ensures cursor <= |query|
      ensures (tokens, fulltext) == ParseRest(query, old(tokens), old(fulltext), ParseOptions())
    {
      ghost var opts := ParseOptions();
      ghost var goal := ParseRest(query, tokens, fulltext, opts);
      cursor := 0;
      assert query[cursor..] == query;
      var more := true;
      while more
        invariant cursor <= |query|
        invariant more ==> ParseRest(query[cursor..], tokens, fulltext, opts) == goal
        invariant !more ==> (tokens, fulltext) == goal
        decreases if more then |query| - cursor + 1 else 0
      {
        ghost var rest0, toks0, ft0 := query[cursor..], tokens, fulltext;
        more := ParsePass();
        if more {
          ParseRestContinues(rest0, toks0, ft0, opts, (query[cursor..], tokens, fulltext));
        } else {
          ParseRestStops(rest0, toks0, ft0, opts);
        }
      }
    }
  }
}
