/**
 * What the tokenizer promises about every query, and how it treats the
 * shapes of query the source singles out: blank queries, exclusions,
 * attribute scopes, quoted phrases and OR chains.
 */
module TokenizerProperties {
  import opened Wrappers
  import opened PhpStrings
  import opened Terms
  import opened Chunks
  import opened Tokenizer

  /** Every group holds at least one term. */
  predicate GroupsNonEmpty(toks: seq<Token>) {
    forall i :: 0 <= i < |toks| && toks[i].Group? ==> |toks[i].terms| > 0
  }

  /** Every term has a truthy text. */
  predicate AllTruthy(ts: seq<Term>) {
    forall j :: 0 <= j < |ts| ==> Truthy(ts[j].text)
  }

  /** Every term could be served by a full-text index. */
  predicate AllEligible(ts: seq<Term>, opts: Options) {
    forall j :: 0 <= j < |ts| ==> Eligible(ts[j].text, opts)
  }

  /** What holds of the tokens and flag at every point of the parse. */
  predicate WellFormed(toks: seq<Token>, ft: bool, opts: Options) {
    GroupsNonEmpty(toks) && AllTruthy(Flatten(toks)) && (ft <==> AllEligible(Flatten(toks), opts))
  }

  /**
   * `toks'` grew out of `toks`: the terms only get more, at the end, and
   * every token before the last one is kept as it was.
   */
  predicate Extends(toks: seq<Token>, toks': seq<Token>) {
    Flatten(toks) <= Flatten(toks') && |toks| <= |toks'| &&
    (|toks| > 0 ==> toks[..|toks| - 1] <= toks')
  }

  /** One more term: all eligible exactly when the old ones and the new one are. */
  lemma AllEligibleSnoc(ts: seq<Term>, t: Term, opts: Options)
    ensures AllEligible(ts + [t], opts) <==> AllEligible(ts, opts) && Eligible(t.text, opts)
    ensures AllTruthy(ts) && Truthy(t.text) ==> AllTruthy(ts + [t])
  {
    if AllEligible(ts + [t], opts) {
      forall j | 0 <= j < |ts|
        ensures Eligible(ts[j].text, opts)
      {
        assert (ts + [t])[j] == ts[j];
      }
      assert (ts + [t])[|ts|] == t;
    }
  }

  lemma ExtendsTransitive(a: seq<Token>, b: seq<Token>, c: seq<Token>)
    requires Extends(a, b) && Extends(b, c)
    ensures Extends(a, c)
  {
    if |a| > 0 {
      assert a[..|a| - 1] <= b[..|b| - 1];
    }
  }

  /** Wrapping the last token forgets nothing and adds nothing. */
  lemma WrapLastKeeps(toks: seq<Token>, ft: bool, opts: Options)
    requires |toks| > 0 && WellFormed(toks, ft, opts)
    ensures WellFormed(WrapLast(toks), ft, opts) && Extends(toks, WrapLast(toks))
    ensures Flatten(WrapLast(toks)) == Flatten(toks)
  {
    var n := |toks|;
    FlattenReplaceLast(toks, Group(TermsOf(toks[n - 1])));
    WrapLastCases(toks);
    assert WrapLast(toks)[..n - 1] == toks[..n - 1];
  }

  /** Emitting a truthy term keeps the parse well formed and only extends it. */
  lemma EmitKeeps(toks: seq<Token>, ft: bool, t: Term, append: bool, opts: Options)
    requires append ==> |toks| > 0
    requires WellFormed(toks, ft, opts) && Truthy(t.text)
    ensures var toks' := if append then AppendToLast(toks, t) else toks + [Single(t)];
            WellFormed(toks', ft && Eligible(t.text, opts), opts) && Extends(toks, toks')
  {
    var toks' := if append then AppendToLast(toks, t) else toks + [Single(t)];
    if append {
      FlattenReplaceLast(toks, Group(TermsOf(toks[|toks| - 1]) + [t]));
      assert toks'[..|toks| - 1] == toks[..|toks| - 1];
    } else {
      FlattenAppend(toks, Single(t));
      assert toks'[..|toks|] == toks;
    }
    assert Flatten(toks') == Flatten(toks) + [t];
    AllEligibleSnoc(Flatten(toks), t, opts);
    assert GroupsNonEmpty(toks') by {
      forall i | 0 <= i < |toks'| && toks'[i].Group?
        ensures |toks'[i].terms| > 0
      {
        if i < |toks| - 1 || (!append && i < |toks|) {
          assert toks'[i] == toks[i];
        }
      }
    }
  }

  /** Absorbing a chunk keeps the parse well formed and only extends it. */
  lemma AbsorbKeeps(chunk: string, rest: string, toks: seq<Token>, ft: bool, append: bool, opts: Options)
    requires |chunk| > 0 && (append ==> |toks| > 0)
    requires WellFormed(toks, ft, opts)
    ensures var r := Absorb(chunk, rest, toks, ft, append, opts);
            WellFormed(r.1, r.2, opts) && Extends(toks, r.1) && (r.2 ==> ft)
  {
    var (term, rest') := ProcessChunk(chunk, rest, opts);
    AbsorbCases(chunk, rest, toks, ft, append, opts, term, rest');
    if term.Some? {
      EmitKeeps(toks, ft, term.value, append, opts);
    } else {
      assert Flatten(toks) <= Flatten(toks);
      if |toks| > 0 {
        assert toks[..|toks| - 1] <= toks;
      }
    }
  }

  /** One pass keeps the parse well formed and only extends it. */
  lemma StepKeeps(rest: string, toks: seq<Token>, ft: bool, opts: Options)
    requires WellFormed(toks, ft, opts)
    ensures var r := Step(rest, toks, ft, opts);
            r.Some? ==> WellFormed(r.value.1, r.value.2, opts) && Extends(toks, r.value.1) && (r.value.2 ==> ft)
  {
    match NextChunk(rest, ' ')
    case None =>
    case Some((chunk, rest1)) =>
      if chunk == "OR" {
        match NextChunk(rest1, ' ')
        case None =>
        case Some((operand, rest2)) =>
          if |toks| > 0 {
            WrapLastKeeps(toks, ft, opts);
            AbsorbKeeps(operand, rest2, WrapLast(toks), ft, true, opts);
            ExtendsTransitive(toks, WrapLast(toks), Absorb(operand, rest2, WrapLast(toks), ft, true, opts).1);
          } else {
            AbsorbKeeps(operand, rest2, toks, ft, false, opts);
          }
      } else {
        AbsorbKeeps(chunk, rest1, toks, ft, false, opts);
      }
  }

  /** The rest of the parse keeps it well formed and only extends it. */
  lemma {:induction false} ParseRestKeeps(rest: string, toks: seq<Token>, ft: bool, opts: Options)
    requires WellFormed(toks, ft, opts)
    ensures var r := ParseRest(rest, toks, ft, opts);
            WellFormed(r.0, r.1, opts) && Extends(toks, r.0) && (r.1 ==> ft)
    decreases |rest|
  {
    StepKeeps(rest, toks, ft, opts);
    match Step(rest, toks, ft, opts)
    case None =>
      assert Flatten(toks) <= Flatten(toks);
      if |toks| > 0 {
        assert toks[..|toks| - 1] <= toks;
      }
    case Some((rest', toks', ft')) =>
      ParseRestKeeps(rest', toks', ft', opts);
      ExtendsTransitive(toks, toks', ParseRest(rest', toks', ft', opts).0);
  }

  /**
   * Every parse yields terms with truthy text only and no empty group, and
   * the full-text flag is true exactly when every term it yields is long
   * enough and not a stop word.
   */
  lemma TokenizeInvariants(query: string, opts: Options)
    ensures AllTruthy(Flatten(Tokenize(query, opts).0))
    ensures GroupsNonEmpty(Tokenize(query, opts).0)
    ensures Tokenize(query, opts).1 <==> AllEligible(Flatten(Tokenize(query, opts).0), opts)
  {
    ParseRestKeeps(query, [], true, opts);
  }

  /** Once the flag is false, no later chunk sets it back. */
  lemma FulltextNeverRestored(rest: string, toks: seq<Token>, opts: Options)
    ensures ParseRest(rest, toks, false, opts).1 == false
  {
    FulltextMonotone(rest, toks, false, opts);
  }

  /** The flag at the end is at most the flag the parse started from. */
  lemma {:induction false} FulltextMonotone(rest: string, toks: seq<Token>, ft: bool, opts: Options)
    ensures ParseRest(rest, toks, ft, opts).1 ==> ft
    decreases |rest|
  {
    match Step(rest, toks, ft, opts)
    case None =>
    case Some((rest', toks', ft')) =>
      FulltextMonotone(rest', toks', ft', opts);
      assert ft' ==> ft by {
        StepFlagOnlyFalls(rest, toks, ft, opts);
      }
  }

  /** One pass only ever clears the flag. */
  lemma StepFlagOnlyFalls(rest: string, toks: seq<Token>, ft: bool, opts: Options)
    ensures Step(rest, toks, ft, opts).Some? ==> (Step(rest, toks, ft, opts).value.2 ==> ft)
  {
    match NextChunk(rest, ' ')
    case None =>
    case Some((chunk, rest1)) =>
      if chunk == "OR" {
        match NextChunk(rest1, ' ')
        case None =>
        case Some((operand, rest2)) =>
          var toks' := if |toks| > 0 then WrapLast(toks) else toks;
          var (term, rest3) := ProcessChunk(operand, rest2, opts);
          AbsorbCases(operand, rest2, toks', ft, |toks| > 0, opts, term, rest3);
      } else {
        var (term, rest2) := ProcessChunk(chunk, rest1, opts);
        AbsorbCases(chunk, rest1, toks, ft, false, opts, term, rest2);
      }
  }

  /** Earlier tokens are never touched again; only the last may still grow into a group. */
  lemma ParseOnlyExtends(rest: string, toks: seq<Token>, ft: bool, opts: Options)
    requires WellFormed(toks, ft, opts)
    ensures Flatten(toks) <= Flatten(ParseRest(rest, toks, ft, opts).0)
    ensures |toks| > 0 ==> toks[..|toks| - 1] <= ParseRest(rest, toks, ft, opts).0
  {
    ParseRestKeeps(rest, toks, ft, opts);
  }

  // ----- One pass, stated by what strtok and the chunk steps give -----

  /** Only spaces: strtok has nothing more to return. */
  predicate Blank(s: string) {
    forall i :: 0 <= i < |s| ==> s[i] == ' '
  }

  /** A pass over a chunk (not `OR`) that yields a term emits it as a token of its own. */
  lemma ChunkEmits(rest: string, toks: seq<Token>, ft: bool, opts: Options,
                   chunk: string, rest1: string, t: Term, rest2: string)
    requires NextChunk(rest, ' ') == Some((chunk, rest1)) && chunk != "OR"
    requires ProcessChunk(chunk, rest1, opts) == (Some(t), rest2)
    ensures Step(rest, toks, ft, opts) == Some((rest2, toks + [Single(t)], ft && Eligible(t.text, opts)))
  {
    StepReadsChunk(rest, toks, ft, opts, chunk, rest1);
    AbsorbCases(chunk, rest1, toks, ft, false, opts, Some(t), rest2);
  }

  /** A pass over a chunk (not `OR`) that yields nothing changes neither tokens nor flag. */
  lemma ChunkDropped(rest: string, toks: seq<Token>, ft: bool, opts: Options,
                     chunk: string, rest1: string, rest2: string)
    requires NextChunk(rest, ' ') == Some((chunk, rest1)) && chunk != "OR"
    requires ProcessChunk(chunk, rest1, opts) == (None, rest2)
    ensures Step(rest, toks, ft, opts) == Some((rest2, toks, ft))
  {
    StepReadsChunk(rest, toks, ft, opts, chunk, rest1);
    AbsorbCases(chunk, rest1, toks, ft, false, opts, None, rest2);
  }

  /** Appending to the wrapped last token is appending to the last token. */
  lemma AppendToWrapped(toks: seq<Token>, t: Term)
    requires |toks| > 0
    ensures AppendToLast(WrapLast(toks), t) == AppendToLast(toks, t)
  {
  }

  /**
   * A pass over `OR` and a chunk that yields a term adds the term to the
   * group the previous token becomes; with no previous token, the term
   * stands alone.
   */
  lemma OrEmits(rest: string, toks: seq<Token>, ft: bool, opts: Options,
                rest1: string, operand: string, rest2: string, t: Term, rest3: string)
    requires NextChunk(rest, ' ') == Some(("OR", rest1))
    requires NextChunk(rest1, ' ') == Some((operand, rest2))
    requires ProcessChunk(operand, rest2, opts) == (Some(t), rest3)
    ensures Step(rest, toks, ft, opts) ==
            Some((rest3,
                  if |toks| > 0 then AppendToLast(toks, t) else toks + [Single(t)],
                  ft && Eligible(t.text, opts)))
  {
    if |toks| > 0 {
      StepReadsOr(rest, toks, ft, opts, rest1, operand, rest2, WrapLast(toks), true);
      AbsorbCases(operand, rest2, WrapLast(toks), ft, true, opts, Some(t), rest3);
      AppendToWrapped(toks, t);
    } else {
      StepReadsOr(rest, toks, ft, opts, rest1, operand, rest2, toks, false);
      AbsorbCases(operand, rest2, toks, ft, false, opts, Some(t), rest3);
    }
  }

  /**
   * A pass over `OR` and a chunk that yields nothing still leaves the
   * previous token a group: it is wrapped before the chunk is looked at.
   */
  lemma OrDropped(rest: string, toks: seq<Token>, ft: bool, opts: Options,
                  rest1: string, operand: string, rest2: string, rest3: string)
    requires NextChunk(rest, ' ') == Some(("OR", rest1))
    requires NextChunk(rest1, ' ') == Some((operand, rest2))
    requires ProcessChunk(operand, rest2, opts) == (None, rest3)
    ensures Step(rest, toks, ft, opts) == Some((rest3, if |toks| > 0 then WrapLast(toks) else toks, ft))
  {
    var append := |toks| > 0;
    var toks' := if append then WrapLast(toks) else toks;
    StepReadsOr(rest, toks, ft, opts, rest1, operand, rest2, toks', append);
    AbsorbCases(operand, rest2, toks', ft, append, opts, None, rest3);
  }

  /** Once only spaces are left, the parse is over. */
  lemma ParseRestBlank(rest: string, toks: seq<Token>, ft: bool, opts: Options)
    requires Blank(rest)
    ensures ParseRest(rest, toks, ft, opts) == (toks, ft)
  {
    ParseRestStops(rest, toks, ft, opts);
  }

  /** A query whose one chunk yields a term is that term alone. */
  lemma OneTermQuery(query: string, opts: Options, chunk: string, rest1: string, t: Term, rest2: string)
    requires NextChunk(query, ' ') == Some((chunk, rest1)) && chunk != "OR"
    requires ProcessChunk(chunk, rest1, opts) == (Some(t), rest2) && Blank(rest2)
    ensures Tokenize(query, opts) == ([Single(t)], Eligible(t.text, opts))
  {
    ChunkEmits(query, [], true, opts, chunk, rest1, t, rest2);
    assert [] + [Single(t)] == [Single(t)];
    ParseRestContinues(query, [], true, opts, (rest2, [Single(t)], Eligible(t.text, opts)));
    ParseRestBlank(rest2, [Single(t)], Eligible(t.text, opts), opts);
  }

  // ----- Queries with nothing in them -----

  /** An empty query, or one of spaces only, yields no tokens and keeps the flag. */
  lemma BlankQuery(query: string, opts: Options)
    requires Blank(query)
    ensures Tokenize(query, opts) == ([], true)
  {
    ParseRestBlank(query, [], true, opts);
  }

  // ----- Plain words -----

  /** A chunk the parse takes as it is: no dash, quote, colon or space, and not `OR`. */
  predicate PlainWord(w: string) {
    |w| > 0 && ' ' !in w && w != "OR" && w[0] != '-' && !IsQuote(w[0]) && ':' !in w
  }

  /** The normalized text of a word. */
  function Normalized(w: string, opts: Options): string {
    opts.normalize(w, opts.ignoreWords)
  }

  /** The term a plain word yields. */
  function PlainTerm(w: string, opts: Options): Term {
    Term(false, None, Normalized(w, opts))
  }

  /** A plain word yields a term exactly when its normalized text is truthy. */
  lemma PlainChunk(w: string, rest: string, opts: Options)
    requires PlainWord(w)
    ensures ProcessChunk(w, rest, opts) ==
            (if Truthy(Normalized(w, opts)) then Some(PlainTerm(w, opts)) else None, rest)
  {
    NoColonNoAttribute(w);
  }

  /**
   * A pass over a plain word emits its term as a token of its own, whether
   * or not the term is full-text eligible (ineligibility only clears the flag).
   */
  lemma PlainWordStep(w: string, tail: string, toks: seq<Token>, ft: bool, opts: Options)
    requires PlainWord(w) && Truthy(Normalized(w, opts))
    requires tail == [] || tail[0] == ' '
    ensures Step(w + tail, toks, ft, opts) ==
            Some((DropOne(tail), toks + [Single(PlainTerm(w, opts))], ft && Eligible(Normalized(w, opts), opts)))
  {
    NextChunkWord(w, tail, ' ');
    PlainChunk(w, DropOne(tail), opts);
    ChunkEmits(w + tail, toks, ft, opts, w, DropOne(tail), PlainTerm(w, opts), DropOne(tail));
  }

  /** A pass over a word whose normalized text is falsy emits nothing and keeps the flag. */
  lemma FalsyWordSkipped(w: string, tail: string, toks: seq<Token>, ft: bool, opts: Options)
    requires PlainWord(w) && !Truthy(Normalized(w, opts))
    requires tail == [] || tail[0] == ' '
    ensures Step(w + tail, toks, ft, opts) == Some((DropOne(tail), toks, ft))
  {
    NextChunkWord(w, tail, ' ');
    PlainChunk(w, DropOne(tail), opts);
    ChunkDropped(w + tail, toks, ft, opts, w, DropOne(tail), DropOne(tail));
  }

  /** strtok over `OR` and the chunk after it. */
  lemma OrThenChunk(c: string, tail: string)
    requires |c| > 0 && ' ' !in c
    requires tail == [] || tail[0] == ' '
    ensures NextChunk("OR " + c + tail, ' ') == Some(("OR", c + tail))
    ensures NextChunk(c + tail, ' ') == Some((c, DropOne(tail)))
  {
    assert "OR " + c + tail == "OR" + (" " + (c + tail));
    NextChunkWord("OR", " " + (c + tail), ' ');
    assert DropOne(" " + (c + tail)) == c + tail;
    NextChunkWord(c, tail, ' ');
  }

  /**
   * A pass over `OR` and a plain word adds the word's term to the group the
   * previous token becomes; with no previous token, the term stands alone.
   */
  lemma OrPlainWordStep(w: string, tail: string, toks: seq<Token>, ft: bool, opts: Options)
    requires PlainWord(w) && Truthy(Normalized(w, opts))
    requires tail == [] || tail[0] == ' '
    ensures Step("OR " + w + tail, toks, ft, opts) ==
            Some((DropOne(tail),
                  if |toks| > 0 then AppendToLast(toks, PlainTerm(w, opts)) else toks + [Single(PlainTerm(w, opts))],
                  ft && Eligible(Normalized(w, opts), opts)))
  {
    OrThenChunk(w, tail);
    PlainChunk(w, DropOne(tail), opts);
    OrEmits("OR " + w + tail, toks, ft, opts, w + tail, w, DropOne(tail), PlainTerm(w, opts), DropOne(tail));
  }

  /** A single plain word is a single term. */
  lemma PlainWordQuery(w: string, opts: Options)
    requires PlainWord(w) && Truthy(Normalized(w, opts))
    ensures Tokenize(w, opts) == ([Single(PlainTerm(w, opts))], Eligible(Normalized(w, opts), opts))
  {
    NextChunkWord(w, [], ' ');
    assert w + [] == w;
    PlainChunk(w, [], opts);
    OneTermQuery(w, opts, w, [], PlainTerm(w, opts), []);
  }

  // ----- Exclusion -----

  /** `-word` yields the word's term, marked as excluded. */
  lemma ExcludedWordQuery(w: string, opts: Options)
    requires PlainWord(w) && Truthy(w) && Truthy(Normalized(w, opts))
    ensures Tokenize("-" + w, opts) ==
            ([Single(Term(true, None, Normalized(w, opts)))], Eligible(Normalized(w, opts), opts))
  {
    var q := "-" + w;
    NextChunkWord(q, [], ' ');
    assert q + [] == q;
    assert q[1..] == w;
    NoColonNoAttribute(w);
    assert ProcessChunk(q, [], opts) == (Some(Term(true, None, Normalized(w, opts))), []);
    OneTermQuery(q, opts, q, [], Term(true, None, Normalized(w, opts)), []);
  }

  /**
   * A dash followed by nothing worth keeping, such as a bare `-` or `-0`,
   * is dropped before anything else looks at it.
   */
  lemma FalsyExclusionDropped(body: string, tail: string, toks: seq<Token>, ft: bool, opts: Options)
    requires !Truthy(body) && ' ' !in body
    requires tail == [] || tail[0] == ' '
    ensures Step("-" + body + tail, toks, ft, opts) == Some((DropOne(tail), toks, ft))
  {
    var c := "-" + body;
    assert NextChunk(c + tail, ' ') == Some((c, DropOne(tail))) by {
      assert ' ' !in c;
      NextChunkWord(c, tail, ' ');
    }
    assert ProcessChunk(c, DropOne(tail), opts) == (None, DropOne(tail)) by {
      assert SplitExclude(c) == (true, body);
    }
    ChunkDropped(c + tail, toks, ft, opts, c, DropOne(tail), DropOne(tail));
  }

  /** A bare dash is dropped at once, before anything reads on. */
  lemma BareDashChunk(rest: string, opts: Options)
    ensures ProcessChunk("-", rest, opts) == (None, rest)
  {
    assert SplitExclude("-") == (true, "");
  }

  /** A bare dash on its own is no query at all. */
  lemma BareDashQuery(opts: Options)
    ensures Tokenize("-", opts) == ([], true)
  {
    assert "-" == "-" + "" + "";
    FalsyExclusionDropped("", "", [], true, opts);
    ParseRestContinues("-", [], true, opts, ([], [], true));
    ParseRestBlank([], [], true, opts);
  }

  // ----- Attribute scope -----

  /** Any chunk that starts with a quote is never attribute-scoped. */
  lemma QuotedNoAttribute(t: string)
    requires |t| > 0 && IsQuote(t[0])
    ensures MatchAttribute(t) == None
  {
    assert WordPrefix(t) == 0;
  }

  /** strtok returns `name:word` whole: neither part holds a space. */
  lemma AttributeChunk(name: string, w: string)
    requires |name| > 0 && forall i :: 0 <= i < |name| ==> IsWordChar(name[i])
    requires ' ' !in w
    ensures var q := name + ":" + w;
            ' ' !in q && q != "OR" && q[0] != '-' && NextChunk(q, ' ') == Some((q, []))
  {
    var q := name + ":" + w;
    forall i | 0 <= i < |q|
      ensures q[i] != ' '
    {
      if i < |name| {
        assert q[i] == name[i];
      } else if i > |name| {
        assert q[i] == w[i - |name| - 1];
      }
    }
    assert q[0] == name[0];
    assert q[|name|] == ':';
    assert q != "OR" by {
      assert forall i :: 0 <= i < |"OR"| ==> "OR"[i] != ':';
    }
    assert q + [] == q;
    NextChunkWord(q, [], ' ');
  }

  /** `name:word` yields the word's term, scoped to the attribute `name`. */
  lemma AttributeWordQuery(name: string, w: string, opts: Options)
    requires |name| > 0 && forall i :: 0 <= i < |name| ==> IsWordChar(name[i])
    requires PlainWord(w) && '\n' !in w && Truthy(Normalized(w, opts))
    ensures Tokenize(name + ":" + w, opts) ==
            ([Single(Term(false, Some(name), Normalized(w, opts)))], Eligible(Normalized(w, opts), opts))
  {
    var q := name + ":" + w;
    var t := Term(false, Some(name), Normalized(w, opts));
    AttributeChunk(name, w);
    MatchAttributeComplete(q, name, w);
    assert ProcessChunk(q, [], opts) == (Some(t), []) by {
      assert ProcessChunk(q, [], opts) == Classify(false, q, [], opts);
    }
    OneTermQuery(q, opts, q, [], t, []);
  }

  // ----- Quoted phrases -----

  /**
   * A quoted phrase whose closing quote is further on in the query is one
   * term, however many spaces it holds: the first word, one space and the
   * rest up to the closing quote.
   */
  lemma QuotedPhraseQuery(q: char, first: string, closing: string, opts: Options)
    requires IsQuote(q)
    requires |first| > 0 && q !in first && ' ' !in first
    requires |closing| > 0 && q !in closing
    requires Truthy(Normalized(first + " " + closing, opts))
    ensures Tokenize([q] + first + " " + closing + [q], opts) ==
            ([Single(Term(false, None, Normalized(first + " " + closing, opts)))],
             Eligible(Normalized(first + " " + closing, opts), opts))
  {
    var chunk := [q] + first;
    var rest1 := closing + [q];
    var t := Term(false, None, Normalized(first + " " + closing, opts));
    assert [q] + first + " " + closing + [q] == chunk + (" " + rest1);
    assert ' ' !in chunk;
    NextChunkWord(chunk, " " + rest1, ' ');
    assert DropOne(" " + rest1) == rest1;
    assert chunk != "OR";
    QuotedNoAttribute(chunk);
    assert closing + [q] + [] == rest1;
    QuotedPhraseSpansChunks(q, first, closing, []);
    assert ProcessChunk(chunk, rest1, opts) == (Some(t), []) by {
      assert ProcessChunk(chunk, rest1, opts) == Classify(false, chunk, rest1, opts);
    }
    OneTermQuery(chunk + (" " + rest1), opts, chunk, rest1, t, []);
  }

  /**
   * A quote that stands alone as a chunk closes itself: its phrase is empty,
   * so when the empty text normalizes to a falsy one nothing is emitted, and
   * the words after it are read as ordinary chunks.
   */
  lemma LoneQuoteDropped(q: char, tail: string, toks: seq<Token>, ft: bool, opts: Options)
    requires IsQuote(q) && !Truthy(Normalized("", opts))
    requires tail == [] || tail[0] == ' '
    ensures Step([q] + tail, toks, ft, opts) == Some((DropOne(tail), toks, ft))
  {
    assert ' ' !in [q];
    NextChunkWord([q], tail, ' ');
    QuotedNoAttribute([q]);
    assert ProcessChunk([q], DropOne(tail), opts) == (None, DropOne(tail)) by {
      assert ProcessChunk([q], DropOne(tail), opts) == Classify(false, [q], DropOne(tail), opts);
    }
    ChunkDropped([q] + tail, toks, ft, opts, [q], DropOne(tail), DropOne(tail));
  }

  // ----- OR grouping -----

  /** ` OR w1 OR w2 ...`: the words, each after an `OR`. */
  function OrTail(ws: seq<string>): string {
    if ws == [] then "" else " OR " + ws[0] + OrTail(ws[1..])
  }

  /** The plain terms of a list of words, in order. */
  function PlainTerms(ws: seq<string>, opts: Options): seq<Term> {
    seq(|ws|, i requires 0 <= i < |ws| => PlainTerm(ws[i], opts))
  }

  /** Every word is plain and normalizes to a truthy text. */
  predicate AllKept(ws: seq<string>, opts: Options) {
    forall i :: 0 <= i < |ws| ==> PlainWord(ws[i]) && Truthy(Normalized(ws[i], opts))
  }

  /** Every word's normalized text is full-text eligible. */
  predicate AllWordsEligible(ws: seq<string>, opts: Options) {
    forall i :: 0 <= i < |ws| ==> Eligible(Normalized(ws[i], opts), opts)
  }

  /** The first word, then the rest. */
  lemma WordsSplit(ws: seq<string>, opts: Options)
    requires |ws| > 0
    ensures PlainTerms(ws, opts) == [PlainTerm(ws[0], opts)] + PlainTerms(ws[1..], opts)
    ensures AllWordsEligible(ws, opts) <==>
            Eligible(Normalized(ws[0], opts), opts) && AllWordsEligible(ws[1..], opts)
    ensures AllKept(ws, opts) ==> AllKept(ws[1..], opts)
  {
    if Eligible(Normalized(ws[0], opts), opts) && AllWordsEligible(ws[1..], opts) {
      forall i | 0 <= i < |ws|
        ensures Eligible(Normalized(ws[i], opts), opts)
      {
        if i > 0 {
          assert ws[i] == ws[1..][i - 1];
        }
      }
    }
  }

  /** Appending `t` and then `more` to the last token's terms, spelt out. */
  lemma AppendToLastThen(toks: seq<Token>, t: Term, more: seq<Term>)
    requires |toks| > 0
    ensures var r := AppendToLast(toks, t);
            r[..|r| - 1] + [Group(TermsOf(r[|r| - 1]) + more)] ==
            toks[..|toks| - 1] + [Group(TermsOf(toks[|toks| - 1]) + ([t] + more))]
    ensures AppendToLast(toks, t) == toks[..|toks| - 1] + [Group(TermsOf(toks[|toks| - 1]) + [t])]
  {
    var r := AppendToLast(toks, t);
    assert r == r[..|r| - 1] + [r[|r| - 1]];
    assert TermsOf(toks[|toks| - 1]) + [t] + more == TermsOf(toks[|toks| - 1]) + ([t] + more);
  }

  /** One `OR word` of the chain: the word joins the group of the last token. */
  lemma OrTailStep(ws: seq<string>, toks: seq<Token>, ft: bool, opts: Options)
    requires |ws| > 0 && |toks| > 0 && PlainWord(ws[0]) && Truthy(Normalized(ws[0], opts))
    ensures ParseRest(DropOne(OrTail(ws)), toks, ft, opts) ==
            ParseRest(DropOne(OrTail(ws[1..])), AppendToLast(toks, PlainTerm(ws[0], opts)),
                      ft && Eligible(Normalized(ws[0], opts), opts), opts)
  {
    var w, tail := ws[0], OrTail(ws[1..]);
    assert DropOne(OrTail(ws)) == "OR " + w + tail;
    assert tail == [] || tail[0] == ' ';
    OrPlainWordStep(w, tail, toks, ft, opts);
    ParseRestContinues("OR " + w + tail, toks, ft, opts,
                       (DropOne(tail), AppendToLast(toks, PlainTerm(w, opts)), ft && Eligible(Normalized(w, opts), opts)));
  }

  /**
   * Once a token has been read, every further `OR word` adds the word to
   * the group that token becomes, in input order.
   */
  lemma {:induction false} OrTailGroups(ws: seq<string>, toks: seq<Token>, ft: bool, opts: Options)
    requires |toks| > 0 && AllKept(ws, opts)
    ensures ParseRest(DropOne(OrTail(ws)), toks, ft, opts) ==
            (if ws == [] then toks
             else toks[..|toks| - 1] + [Group(TermsOf(toks[|toks| - 1]) + PlainTerms(ws, opts))],
             ft && AllWordsEligible(ws, opts))
    decreases |ws|
  {
    if ws == [] {
      ParseRestBlank([], toks, ft, opts);
    } else {
      var t := PlainTerm(ws[0], opts);
      var toks' := AppendToLast(toks, t);
      var ft' := ft && Eligible(Normalized(ws[0], opts), opts);
      var n := |toks|;
      var groups := toks[..n - 1] + [Group(TermsOf(toks[n - 1]) + PlainTerms(ws, opts))];
      OrTailStep(ws, toks, ft, opts);
      var r := ParseRest(DropOne(OrTail(ws[1..])), toks', ft', opts);
      OrTailGroups(ws[1..], toks', ft', opts);
      assert r.1 == (ft && AllWordsEligible(ws, opts)) by {
        WordsSplit(ws, opts);
      }
      WordsSplit(ws, opts);
      AppendToLastThen(toks, t, PlainTerms(ws[1..], opts));
      if ws[1..] == [] {
        assert r.0 == toks';
        assert PlainTerms(ws, opts) == [t];
        assert r.0 == groups;
      } else {
        var more := PlainTerms(ws[1..], opts);
        assert r.0 == toks'[..n - 1] + [Group(TermsOf(toks'[n - 1]) + more)];
        assert r.0 == toks[..n - 1] + [Group(TermsOf(toks[n - 1]) + ([t] + more))];
        assert r.0 == groups;
      }
    }
  }

  /** A query that starts with a plain word: the word is the first token. */
  lemma FirstWordThen(a: string, tail: string, opts: Options)
    requires PlainWord(a) && Truthy(Normalized(a, opts))
    requires tail == [] || tail[0] == ' '
    ensures Tokenize(a + tail, opts) ==
            ParseRest(DropOne(tail), [Single(PlainTerm(a, opts))], Eligible(Normalized(a, opts), opts), opts)
  {
    var toks := [Single(PlainTerm(a, opts))];
    var ft := Eligible(Normalized(a, opts), opts);
    PlainWordStep(a, tail, [], true, opts);
    assert [] + toks == toks;
    ParseRestContinues(a + tail, [], true, opts, (DropOne(tail), toks, ft));
  }

  /** An OR chain starts with a space. */
  lemma OrTailStart(ws: seq<string>)
    requires |ws| > 0
    ensures |OrTail(ws)| > 0 && OrTail(ws)[0] == ' '
  {
  }

  /** `a OR b OR ...` is one group of all the words' terms, in input order. */
  lemma OrChainQuery(a: string, ws: seq<string>, opts: Options)
    requires PlainWord(a) && Truthy(Normalized(a, opts))
    requires |ws| > 0 && AllKept(ws, opts)
    ensures Tokenize(a + OrTail(ws), opts) ==
            ([Group([PlainTerm(a, opts)] + PlainTerms(ws, opts))],
             Eligible(Normalized(a, opts), opts) && AllWordsEligible(ws, opts))
  {
    var toks := [Single(PlainTerm(a, opts))];
    var ft := Eligible(Normalized(a, opts), opts);
    OrTailStart(ws);
    FirstWordThen(a, OrTail(ws), opts);
    OrTailGroups(ws, toks, ft, opts);
    assert toks[..0] + [Group(TermsOf(toks[0]) + PlainTerms(ws, opts))] ==
           [Group([PlainTerm(a, opts)] + PlainTerms(ws, opts))];
  }

  /** The OR chain of two words, written out. */
  lemma OrTailOfTwo(b: string, c: string)
    ensures OrTail([b, c]) == " OR " + b + " OR " + c
  {
    assert [b, c][1..] == [c];
    assert [c][1..] == [];
    assert OrTail([c]) == " OR " + c + "";
  }

  /** The three-word case: `a OR b OR c` is the group `[a, b, c]`. */
  lemma OrTripleQuery(a: string, b: string, c: string, opts: Options)
    requires PlainWord(a) && Truthy(Normalized(a, opts))
    requires PlainWord(b) && Truthy(Normalized(b, opts))
    requires PlainWord(c) && Truthy(Normalized(c, opts))
    ensures Tokenize(a + " OR " + b + " OR " + c, opts).0 ==
            [Group([PlainTerm(a, opts), PlainTerm(b, opts), PlainTerm(c, opts)])]
  {
    var ws := [b, c];
    OrTailOfTwo(b, c);
    assert a + OrTail(ws) == a + " OR " + b + " OR " + c;
    OrChainQuery(a, ws, opts);
    assert [PlainTerm(a, opts)] + PlainTerms(ws, opts) ==
           [PlainTerm(a, opts), PlainTerm(b, opts), PlainTerm(c, opts)];
  }

  /** A leading `OR` makes no group: the word after it is a term of its own. */
  lemma LeadingOrQuery(w: string, opts: Options)
    requires PlainWord(w) && Truthy(Normalized(w, opts))
    ensures Tokenize("OR " + w, opts) == ([Single(PlainTerm(w, opts))], Eligible(Normalized(w, opts), opts))
  {
    var toks := [Single(PlainTerm(w, opts))];
    var ft := Eligible(Normalized(w, opts), opts);
    assert "OR " + w + [] == "OR " + w;
    OrPlainWordStep(w, [], [], true, opts);
    assert [] + toks == toks;
    ParseRestContinues("OR " + w, [], true, opts, ([], toks, ft));
    ParseRestBlank([], toks, ft, opts);
  }

  /** An `OR` with only spaces after it ends the parse and emits nothing. */
  lemma TrailingOrEndsParse(spaces: string, toks: seq<Token>, ft: bool, opts: Options)
    requires Blank(spaces)
    ensures ParseRest("OR" + spaces, toks, ft, opts) == (toks, ft)
  {
    NextChunkWord("OR", spaces, ' ');
    StepStopsAtLastOr("OR" + spaces, toks, ft, opts, DropOne(spaces));
    ParseRestStops("OR" + spaces, toks, ft, opts);
  }

  /** `a OR` is just `a`. */
  lemma WordThenTrailingOrQuery(a: string, opts: Options)
    requires PlainWord(a) && Truthy(Normalized(a, opts))
    ensures Tokenize(a + " OR", opts) == ([Single(PlainTerm(a, opts))], Eligible(Normalized(a, opts), opts))
  {
    FirstWordThen(a, " OR", opts);
    assert DropOne(" OR") == "OR" + "";
    TrailingOrEndsParse("", [Single(PlainTerm(a, opts))], Eligible(Normalized(a, opts), opts), opts);
  }

  /**
   * `OR` and then a last chunk that yields nothing: the previous token is
   * still made a group, and nothing is added to it.
   */
  lemma OrDroppedRest(c: string, toks: seq<Token>, ft: bool, opts: Options)
    requires |c| > 0 && ' ' !in c && |toks| > 0
    requires ProcessChunk(c, [], opts) == (None, [])
    ensures ParseRest("OR " + c, toks, ft, opts) == (WrapLast(toks), ft)
  {
    assert "OR " + c + [] == "OR " + c;
    OrThenChunk(c, []);
    assert c + [] == c;
    OrDropped("OR " + c, toks, ft, opts, c, c, [], []);
    ParseRestContinues("OR " + c, toks, ft, opts, ([], WrapLast(toks), ft));
    ParseRestBlank([], WrapLast(toks), ft, opts);
  }

  /** What `cat OR -` leaves to read after `cat`: the last token only becomes a group. */
  lemma OrBareDashAfter(toks: seq<Token>, ft: bool, opts: Options)
    requires |toks| > 0
    ensures ParseRest(DropOne(" OR -"), toks, ft, opts) == (WrapLast(toks), ft)
  {
    assert DropOne(" OR -") == "OR " + "-";
    BareDashChunk([], opts);
    OrDroppedRest("-", toks, ft, opts);
  }

  /** Wrapping a lone term makes a group of one. */
  lemma WrapSingle(t: Term)
    ensures WrapLast([Single(t)]) == [Group([t])]
  {
    WrapLastCases([Single(t)]);
    assert [Single(t)][0 := Group([t])] == [Group([t])];
  }

  /** `a OR -` leaves the one-term group `[a]`. */
  lemma OrBareDashQuery(a: string, opts: Options)
    requires PlainWord(a) && Truthy(Normalized(a, opts))
    ensures Tokenize(a + " OR -", opts) == ([Group([PlainTerm(a, opts)])], Eligible(Normalized(a, opts), opts))
  {
    FirstWordThen(a, " OR -", opts);
    OrBareDashAfter([Single(PlainTerm(a, opts))], Eligible(Normalized(a, opts), opts), opts);
    WrapSingle(PlainTerm(a, opts));
  }
}
