# SearchQuery tokenizer

A Dafny model of Craft's search-query tokenizer, the `SearchQuery` class in
`src/etc/search/SearchQuery.php`. The constructor normalizes the stop-word
list. It then parses the user's query in one left-to-right pass, driven by
PHP's `strtok` cursor. The parse produces two results:

- an ordered list of tokens, each a single term
  (`SearchQueryTerm(exclude, attribute, text)`) or an OR-group of terms;
- a `fulltext` flag that says whether a full-text index can serve every term.

Each chunk goes through these steps:

1. `OR` handling: the next chunk is read (an `OR` with nothing after it
   ends the parse); then the previous token, if there is one, becomes a
   group.
2. A leading `-` marks an exclusion.
3. A `name:value` attribute scope is split off.
4. A quoted phrase may read on past the chunk, up to the closing quote.
5. The text is normalized; a falsy result is dropped.
6. The full-text check runs.
7. The term is emitted.

## Files

- `wrappers.dfy` (`Wrappers`): `Option`.
- `php_strings.dfy` (`PhpStrings`): the PHP built-ins the parse relies on.
  - PHP string truthiness: only `""` and `"0"` are falsy.
  - `strlen`, as the UTF-8 byte length.
  - `strtok`, as `NextChunk` over the part of the query not yet read.
- `terms.dfy` (`Terms`): the `Term` and `Token` datatypes, and the flattened
  list of terms.
- `chunks.dfy` (`Chunks`): how one chunk is taken apart.
  - The exclusion dash.
  - The match of `^(\w+):(.+)$`.
  - The quoted phrase.
- `tokenizer.dfy` (`Tokenizer`): the reference definition of the parse.
  - `Step` is one pass of the `for` loop.
  - `ParseRest` runs the passes to the end.
  - `Tokenize` is a parse of a whole query.
- `search_query.dfy` (`Search`): the class `SearchQuery`. It has the fields
  `tokens`, `fulltext` and `ftStopwords`, and an explicit `cursor` that
  stands for `strtok`'s hidden position. Each method is proved against the
  reference definition:
  - `Strtok` against `NextChunk`;
  - `ReadTerm` against `ProcessChunk`;
  - `ParsePass` against `Step`;
  - `Parse`, the loop, against `ParseRest`.
- `properties.dfy` (`TokenizerProperties`): what every parse guarantees, and
  exact results for the query shapes the code singles out.

Two behaviours of the code are worth spelling out:

- **Quoted phrases.** When a chunk opens a quote on its first word and does
  not close it, the closing part is read with `strtok($token[0])`
  (line 110), with the quote character as the delimiter. That read goes
  through any number of spaces up to the closing quote, so when the text
  after the first word does not itself start with the quote, the phrase
  comes back with all its spaces (`Chunks.QuotedPhraseSpansChunks`,
  `TokenizerProperties.QuotedPhraseQuery`). A quote that stands alone as a
  chunk, as in `" red car"`, is closed by itself (lines 104-106): it gives
  the empty phrase, and the words after it are ordinary chunks
  (`TokenizerProperties.LoneQuoteDropped`).
- **A leading `OR`.** It creates no group (line 63): the chunk after it
  becomes an ordinary token (`TokenizerProperties.LeadingOrQuery`).

## Model

| member | source | states |
|---|---|---|
| PhpStrings.Utf8Width | src/etc/search/SearchQuery.php:128 | one character takes 1 to 4 bytes, and exactly 1 when it is ASCII |
| PhpStrings.ByteLength | src/etc/search/SearchQuery.php:128 | `strlen` is at least the character count and at most four times it, and equals it for ASCII text |
| PhpStrings.SkipCount | src/etc/search/SearchQuery.php:48 | strtok's skip: the leading run of delimiters, ending at a non-delimiter or at the end |
| PhpStrings.RunLength | src/etc/search/SearchQuery.php:48 | strtok's chunk length: the longest prefix free of the delimiter, ending at a delimiter or at the end |
| PhpStrings.SkipCountUnique | src/etc/search/SearchQuery.php:48 | any length that delimits the leading run of delimiters is the skip |
| PhpStrings.RunLengthUnique | src/etc/search/SearchQuery.php:48 | any length that ends the delimiter-free prefix is the chunk length |
| PhpStrings.NextChunk | src/etc/search/SearchQuery.php:48 | a chunk strtok returns is non-empty and free of the delimiter, and what is left is strictly shorter |
| PhpStrings.NextChunkSpec | src/etc/search/SearchQuery.php:48 | strtok returns `false` exactly when only delimiters are left; otherwise the chunk is the text between the leading delimiters and the next delimiter, and reading resumes just past that delimiter |
| PhpStrings.NextChunkAt | src/etc/search/SearchQuery.php:48 | a delimiter-free word after delimiters and before a delimiter (or the end) is the next chunk, and what follows that delimiter is left |
| PhpStrings.NextChunkWord | src/etc/search/SearchQuery.php:55 | the same, for a word with no delimiters in front |
| Terms.FlattenAppend | src/etc/search/SearchQuery.php:141 | appending a token appends exactly its terms to the term list |
| Terms.FlattenReplaceLast | src/etc/search/SearchQuery.php:71 | replacing the last token replaces exactly its terms in the term list |
| Chunks.SplitExclude | src/etc/search/SearchQuery.php:79-81 | a chunk is an exclusion exactly when it starts with `-`, and only that one dash is removed |
| Chunks.WordPrefix | src/etc/search/SearchQuery.php:90 | the length of the leading run of `\w` characters: all of them word characters, followed by a non-word character or the end |
| Chunks.WordPrefixUnique | src/etc/search/SearchQuery.php:90 | any length that ends the leading run of word characters is that run's length |
| Chunks.MatchAttribute | src/etc/search/SearchQuery.php:90-98 | a match splits the chunk into a non-empty word-character name, `:`, and a non-empty value without newlines, with at most one final newline after it |
| Chunks.MatchAttributeComplete | src/etc/search/SearchQuery.php:90-94 | conversely, every `name:value` of that form matches, with exactly that name and value |
| Chunks.FinalNewlineDropped | src/etc/search/SearchQuery.php:90 | PCRE's `$` before one final newline: the captured value loses just that newline |
| Chunks.NoColonNoAttribute | src/etc/search/SearchQuery.php:90-98 | a chunk without a colon has no attribute scope |
| Chunks.ExtractPhrase | src/etc/search/SearchQuery.php:101-116 | unquoted text is the phrase as it is; a quote closed in the same chunk is stripped, and a lone quote gives the empty phrase; otherwise the phrase is the rest of the chunk, one space and what strtok reads up to the next quote, and reading resumes there |
| Chunks.QuotedPhraseSpansChunks | src/etc/search/SearchQuery.php:110 | an open quote closed further on gives the first part, one space and everything up to the closing quote, spaces included |
| Chunks.UnterminatedQuoteTakesRest | src/etc/search/SearchQuery.php:110 | a quote that is never closed takes the whole rest of the query and leaves nothing to read |
| PhpStrings.Truthy | src/etc/search/SearchQuery.php:83 | PHP's truth value of a string: false exactly for `""` and `"0"` (also used at line 122) |
| PhpStrings.DropOne | src/etc/search/SearchQuery.php:48 | strtok steps past the one delimiter that ends a chunk, if there is one |
| Chunks.IsWordChar | src/etc/search/SearchQuery.php:90 | `\w` in the C locale: ASCII letters, digits and `_` |
| Chunks.DropFinalNewline | src/etc/search/SearchQuery.php:90 | `$` may stand before one final newline, which the capture then leaves out |
| Chunks.IsQuote | src/etc/search/SearchQuery.php:101 | the characters `strpos('"\'', ...)` finds: `"` and `'` |
| Tokenizer.NormalizeStopwords | src/etc/search/SearchQuery.php:27 | the stop words, each passed through the normalizer, in order |
| Tokenizer.Eligible | src/etc/search/SearchQuery.php:128 | a term a full-text index can serve: at least `_ft_min_word_len` bytes and not a normalized stop word |
| Tokenizer.Absorb | src/etc/search/SearchQuery.php:78-142 | one chunk absorbed: classified, then dropped or emitted (by cases in `Tokenizer.AbsorbCases`); it never reads back |
| Tokenizer.ParseRest | src/etc/search/SearchQuery.php:48-143 | the `for` loop: passes run until strtok returns false or a trailing `OR` breaks out (its properties are `TokenizerProperties.ParseRestKeeps` and `TokenizerProperties.FulltextMonotone`) |
| Tokenizer.Tokenize | src/etc/search/SearchQuery.php:46-144 | the whole parse, from no tokens and the flag true (its properties are `TokenizerProperties.TokenizeInvariants` and the query lemmas below) |
| Tokenizer.Classify | src/etc/search/SearchQuery.php:89-125 | the value is the attribute match's remainder (or the whole body), and its phrase is read as `ExtractPhrase` reads it; the chunk is kept exactly when the normalized phrase is truthy, and the term's text is that normalized phrase, with the given exclusion, and it is attribute-scoped exactly when the pattern matches, with the matched name |
| Tokenizer.ProcessChunk | src/etc/search/SearchQuery.php:78-125 | a kept term is truthy and excluded exactly when the chunk starts with `-`; a dash before a falsy remainder is dropped without reading on |
| Tokenizer.WrapLast | src/etc/search/SearchQuery.php:65-72 | only the last token changes, and it becomes a group of its own terms |
| Tokenizer.WrapLastCases | src/etc/search/SearchQuery.php:68-72 | a group is left as it is; a single term becomes a group of one |
| Tokenizer.AppendToLast | src/etc/search/SearchQuery.php:137 | only the last token changes, and it becomes the group of its terms followed by the new term |
| Tokenizer.AbsorbCases | src/etc/search/SearchQuery.php:121-142 | a dropped chunk changes neither the tokens nor the flag; a kept term is appended to the last group or as a token of its own, and the flag falls when the term is short or a stop word |
| Tokenizer.Step | src/etc/search/SearchQuery.php:48-76 | a pass that continues the loop consumes input, so the loop ends |
| Tokenizer.StepReadsChunk | src/etc/search/SearchQuery.php:48 | a pass over a chunk other than `OR` absorbs that chunk as a token of its own |
| Tokenizer.StepReadsOr | src/etc/search/SearchQuery.php:52-76 | a pass over `OR` and a chunk first makes the previous token a group, if there is one, then absorbs the chunk into it |
| Tokenizer.StepStopsAtLastOr | src/etc/search/SearchQuery.php:55-58 | an `OR` with no chunk after it ends the loop |
| Tokenizer.ParseRestStops | src/etc/search/SearchQuery.php:48 | when a pass ends the loop, the result is what that pass started from |
| Tokenizer.ParseRestContinues | src/etc/search/SearchQuery.php:48 | a pass that continues the loop leaves the final result unchanged |
| TokenizerProperties.AllEligibleSnoc | src/etc/search/SearchQuery.php:128-131 | one more term: all are eligible exactly when the old ones and the new one are |
| TokenizerProperties.WrapLastKeeps | src/etc/search/SearchQuery.php:65-72 | wrapping the last token keeps the parse well formed and changes no term |
| TokenizerProperties.EmitKeeps | src/etc/search/SearchQuery.php:127-142 | emitting a truthy term keeps every group non-empty and the flag equal to "all terms eligible", and only appends |
| TokenizerProperties.AbsorbKeeps | src/etc/search/SearchQuery.php:78-142 | absorbing a chunk keeps the parse well formed, only appends, and never raises the flag |
| TokenizerProperties.StepKeeps | src/etc/search/SearchQuery.php:48-143 | one pass keeps the parse well formed, only appends, and never raises the flag |
| TokenizerProperties.ParseRestKeeps | src/etc/search/SearchQuery.php:48-143 | the rest of the parse keeps it well formed, only appends, and never raises the flag |
| TokenizerProperties.TokenizeInvariants | src/etc/search/SearchQuery.php:119-131 | every emitted term has truthy text, no group is empty, and the flag is true exactly when every emitted term is at least the minimum byte length and not a stop word |
| TokenizerProperties.FulltextNeverRestored | src/etc/search/SearchQuery.php:128-131 | once the flag is false, it stays false |
| TokenizerProperties.FulltextMonotone | src/etc/search/SearchQuery.php:128-131 | the final flag is at most the flag the parse started from |
| TokenizerProperties.StepFlagOnlyFalls | src/etc/search/SearchQuery.php:128-131 | one pass only ever clears the flag |
| TokenizerProperties.ParseOnlyExtends | src/etc/search/SearchQuery.php:71 | terms are only appended, and every token before the last one is never touched again |
| TokenizerProperties.ChunkEmits | src/etc/search/SearchQuery.php:141 | a pass over a kept chunk appends its term as a token of its own |
| TokenizerProperties.ChunkDropped | src/etc/search/SearchQuery.php:121-125 | a pass over a dropped chunk changes neither the tokens nor the flag |
| TokenizerProperties.AppendToWrapped | src/etc/search/SearchQuery.php:70-74 | appending to the wrapped last token is appending to the last token |
| TokenizerProperties.OrEmits | src/etc/search/SearchQuery.php:60-76 | `OR` and a kept chunk: the term joins the group the previous token becomes, or stands alone when there is no previous token |
| TokenizerProperties.OrDropped | src/etc/search/SearchQuery.php:66-74 | `OR` and a dropped chunk: the previous token has still become a group |
| TokenizerProperties.ParseRestBlank | src/etc/search/SearchQuery.php:48 | once only spaces are left, the parse is over |
| TokenizerProperties.OneTermQuery | src/etc/search/SearchQuery.php:48-143 | a query whose only chunk yields a term is that term alone |
| TokenizerProperties.BlankQuery | src/etc/search/SearchQuery.php:25-26 | an empty query, or one of spaces only, yields no tokens and leaves the flag true |
| TokenizerProperties.PlainChunk | src/etc/search/SearchQuery.php:78-125 | a word without a dash, quote or colon yields the term of its normalized text exactly when that text is truthy |
| TokenizerProperties.PlainWordStep | src/etc/search/SearchQuery.php:127-141 | a kept word is emitted however it fares in the full-text check, which only clears the flag |
| TokenizerProperties.FalsyWordSkipped | src/etc/search/SearchQuery.php:121-125 | a word that normalizes to a falsy text emits nothing and keeps the flag |
| TokenizerProperties.OrThenChunk | src/etc/search/SearchQuery.php:48-55 | strtok reads `OR` and then the chunk after it |
| TokenizerProperties.OrPlainWordStep | src/etc/search/SearchQuery.php:52-76 | `OR word` adds the word's term to the group the previous token becomes |
| TokenizerProperties.PlainWordQuery | src/etc/search/SearchQuery.php:115 | a single plain word is a single term, neither excluded nor scoped |
| TokenizerProperties.ExcludedWordQuery | src/etc/search/SearchQuery.php:79-81 | `-word` is the word's term, marked as excluded |
| TokenizerProperties.FalsyExclusionDropped | src/etc/search/SearchQuery.php:83-86 | a dash followed by a falsy remainder, such as `-` or `-0`, emits nothing and keeps the flag |
| TokenizerProperties.BareDashChunk | src/etc/search/SearchQuery.php:83-86 | a bare dash is dropped before anything reads on |
| TokenizerProperties.BareDashQuery | src/etc/search/SearchQuery.php:83-86 | the query `-` yields no tokens and leaves the flag true |
| TokenizerProperties.QuotedNoAttribute | src/etc/search/SearchQuery.php:90 | a chunk that starts with a quote is never attribute-scoped |
| TokenizerProperties.AttributeChunk | src/etc/search/SearchQuery.php:48 | strtok returns `name:word` whole |
| TokenizerProperties.AttributeWordQuery | src/etc/search/SearchQuery.php:90-94 | `name:word` is the word's term, scoped to the attribute `name` |
| TokenizerProperties.QuotedPhraseQuery | src/etc/search/SearchQuery.php:101-111 | a quoted phrase that closes further on is one term, spaces included |
| TokenizerProperties.LoneQuoteDropped | src/etc/search/SearchQuery.php:101-106 | a quote alone as a chunk closes itself with the empty phrase; when that normalizes to a falsy text, nothing is emitted and reading goes on after it |
| TokenizerProperties.OrTailStep | src/etc/search/SearchQuery.php:52-76 | one `OR word` of a chain adds the word to the last group |
| TokenizerProperties.OrTailGroups | src/etc/search/SearchQuery.php:52-76 | after a token, `OR w1 OR w2 ...` adds every word to the group that token becomes, in input order, and the flag falls exactly when some word is ineligible |
| TokenizerProperties.FirstWordThen | src/etc/search/SearchQuery.php:141 | a query that starts with a plain word has that word as its first token |
| TokenizerProperties.OrChainQuery | src/etc/search/SearchQuery.php:52-76 | `a OR b OR ...` is one group of all the words' terms, in input order |
| TokenizerProperties.OrTripleQuery | src/etc/search/SearchQuery.php:52-76 | `a OR b OR c` is the single group `[a, b, c]` |
| TokenizerProperties.LeadingOrQuery | src/etc/search/SearchQuery.php:62-63 | a leading `OR` makes no group: the word after it is a term of its own |
| TokenizerProperties.TrailingOrEndsParse | src/etc/search/SearchQuery.php:55-58 | an `OR` with only spaces after it ends the parse and emits nothing |
| TokenizerProperties.WordThenTrailingOrQuery | src/etc/search/SearchQuery.php:55-58 | `a OR` is just `a` |
| TokenizerProperties.OrDroppedRest | src/etc/search/SearchQuery.php:66-86 | `OR` and a last chunk that yields nothing: the previous token has become a group with nothing added |
| TokenizerProperties.OrBareDashAfter | src/etc/search/SearchQuery.php:66-86 | what `OR -` does to the tokens before it: the last one only becomes a group |
| TokenizerProperties.WrapSingle | src/etc/search/SearchQuery.php:70 | wrapping a lone term makes a group of one |
| TokenizerProperties.OrBareDashQuery | src/etc/search/SearchQuery.php:66-86 | `cat OR -` leaves the one-term group `[cat]`, because the wrap happens before the dash is looked at |
| Search.SearchQuery.constructor | src/etc/search/SearchQuery.php:22-29 | the stop words are normalized, the query is parsed with the flag starting true, and the flag is true exactly when every term is full-text eligible |
| Search.SearchQuery.GetTokens | src/etc/search/SearchQuery.php:36-39 | the tokens of the parse: every term truthy, no group empty |
| Search.SearchQuery.Strtok | src/etc/search/SearchQuery.php:48 | the cursor loop returns strtok's next chunk and moves to where strtok resumes, or to the end when only delimiters are left |
| Search.SearchQuery.ReadPhrase | src/etc/search/SearchQuery.php:101-116 | the phrase and the new cursor are those of `ExtractPhrase` |
| Search.SearchQuery.ReadTerm | src/etc/search/SearchQuery.php:78-125 | the term and the new cursor are those of `ProcessChunk` |
| Search.SearchQuery.Emit | src/etc/search/SearchQuery.php:127-142 | the flag falls for a short word or a stop word, and the term joins the last group or is appended |
| Search.SearchQuery.AbsorbChunk | src/etc/search/SearchQuery.php:78-142 | the new cursor, tokens and flag are those of `Absorb` |
| Search.SearchQuery.GroupLast | src/etc/search/SearchQuery.php:60-75 | the last token is replaced by the group of its terms |
| Search.SearchQuery.ParsePass | src/etc/search/SearchQuery.php:48-143 | one loop iteration does what `Step` does, and when it ends the loop the tokens and the flag are unchanged |
| Search.SearchQuery.Parse | src/etc/search/SearchQuery.php:46-144 | the loop leaves the tokens and the flag that `ParseRest` gives for the whole query |

## Left out

- `src/elements/Address.php` and `src/controllers/BaseEntriesController.php` are not part of this model. They are persistence, framework service lookups and web-controller permission checks.
- `StringHelper::normalizeKeywords` is a parameter. It is a function of the text and the ignore-word list. Its case folding, diacritic stripping and ignore-word removal are not modelled.
- The one-argument `normalizeKeywords` call on the stop words is modelled as the normalizer applied with an empty ignore list.
- `craft()->config->get('searchIgnoreWords')` is runtime configuration. It is passed to the constructor as `ignoreWords`.
- `in_array` compares loosely in PHP. Stop-word membership is modelled as exact membership of the normalized text. The two differ only for numeric strings; the normalized stop words are assumed not to be numeric.
- Strings are sequences of Unicode characters. `strlen` is their UTF-8 byte length, so byte strings that are not valid UTF-8 are not modelled. Every character the parse inspects (space, `-`, `:`, the quotes, `\w`) is ASCII, so character and byte positions pick the same chunks.
- `substr` returns `false` or `""` depending on the PHP version. The model returns `""`, which behaves the same way as a falsy value in every use here.
- The group object is shared: PHP grows the group object that `$previousToken` refers to. The model replaces the last element of `tokens`, so aliasing of that object is not modelled. The tokens that result are the same.
- `$token == 'OR'` is PHP's loose comparison. With the non-numeric string `OR` it is exact equality, and it is modelled as such.
- `\w` is read with PCRE's default C-locale tables, as ASCII letters, digits and `_`. Under another `LC_CTYPE`, bytes of 0x80 and above may count as word characters; that is not modelled.
- The normalizer is assumed not to call `strtok` itself. A call would move the hidden cursor that the parse shares with it.
- Tokenizer.NormalizeStopwords: the callback `'StringHelper::normalizeKeywords'` at line 27 is a string callable, resolved outside the `Craft` namespace, while the call at line 119 resolves to `Craft\StringHelper`. The model assumes that both reach the same normalizer. If no global `StringHelper` class exists, `array_map` fails instead (a warning and `null` in PHP 5 and 7, so stop words never clear the flag; a `TypeError` in PHP 8), and the model does not show that outcome.
