/**
 * The tokens a search query is parsed into. A Term is one search condition;
 * a Group is a list of Terms that are OR-combined. A Group holds Terms only,
 * so groups never nest.
 */
module Terms {
  import opened Wrappers

  /** One search condition: excluded or not, optionally scoped to an attribute. */
  datatype Term = Term(exclude: bool, attribute: Option<string>, text: string)

  /** An element of the parsed query: a single Term or an OR-group of Terms. */
  datatype Token = Single(term: Term) | Group(terms: seq<Term>)

  /** The Terms a token stands for, in order. */
  function TermsOf(t: Token): seq<Term> {
    match t
    case Single(x) => [x]
    case Group(ts) => ts
  }

  /** All Terms of a token list, in order, with the grouping forgotten. */
  function Flatten(toks: seq<Token>): seq<Term> {
    if toks == [] then [] else Flatten(toks[..|toks| - 1]) + TermsOf(toks[|toks| - 1])
  }

  /** Appending a token appends its terms to the flattened list. */
  lemma FlattenAppend(toks: seq<Token>, t: Token)
    ensures Flatten(toks + [t]) == Flatten(toks) + TermsOf(t)
  {
    assert (toks + [t])[..|toks|] == toks;
  }

  /** Replacing the last token replaces exactly its terms in the flattened list. */
  lemma FlattenReplaceLast(toks: seq<Token>, t: Token)
    requires |toks| > 0
    ensures Flatten(toks[|toks| - 1 := t]) == Flatten(toks[..|toks| - 1]) + TermsOf(t)
    ensures Flatten(toks) == Flatten(toks[..|toks| - 1]) + TermsOf(toks[|toks| - 1])
  {
    assert toks[|toks| - 1 := t][..|toks| - 1] == toks[..|toks| - 1];
  }
}
