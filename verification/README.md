# tantivy-go core, modelled in Dafny

tantivy-go is a Go library over the Rust search engine tantivy. This project models the library's core as pure Dafny functions and methods, and proves properties of them.

## What is modelled

**Structured-query pipeline.** This path takes a query from the Go builder to a tantivy query:

- **Go side.** The `QueryBuilder` interns texts and field names into two string tables. Each clause refers to the tables by index. The builder emits a `FinalQuery` document as JSON.
- **Rust decoding.** The Rust side decodes the document with hand-written serde visitors: `QueryType` and `QueryModifier` codes, per-clause defaults, and the nested `BoolQuery` arm.
- **Rust compilation.** `convert_to_tantivy` compiles the decoded document into a boolean query of phrase, phrase-prefix and single-term-prefix clauses. Each clause is wrapped in a boost when its boost is not 1.
- **Terms.** A clause's terms come from `extract_terms`, which runs the field's tokenizer and pairs each token position with a term.

**Edge n-gram tokenizers.** There are two, and both yield prefixes of each word:

- **Current.** It works on byte lengths and numbers tokens by word index.
- **Legacy.** It works on character lengths and puts every token at position 0.

Both first cut the input to a byte budget. The token stream both hand to tantivy is a cursor over a token vector.

**Go search context.** `SearchContextBuilder` fills in a query, a document limit, a highlight flag and a weight per field. Its `Build` returns the context the builder keeps filling, not a copy.

**Stemmer table.** The two-letter language codes the Rust side accepts. The model compares them with the language constants the Go side declares.

**Fast-field reading.** This reads one string fast field for a list of document addresses. It groups the addresses by segment and opens each segment's column once.

**Search-quality metrics.** `extractIds`, `escape`, and precision and recall at k.

### Modules

Each file holds one module:

| Module | Contents |
|---|---|
| `Wrappers` | `Option`, `Result` |
| `Json` | the JSON value tree |
| `QueryModel` | the Rust query types |
| `Serializers` | the deserializers |
| `WireEncoding` | the wire shape the hand-written clause decoder reads, written out as an encoder: the inverse of the decoder, not serde's derived `Serialize` output |
| `Text` | UTF-8 byte lengths, splitting at whitespace, truncation |
| `Tokens` | the token stream |
| `Terms` | `extract_terms` |
| `Convert` | compilation to a tantivy query |
| `EdgeNgram`, `EdgeNgramLegacy` | the two tokenizers |
| `SearchQueryBuilder` | the Go query builder |
| `SearchContext` | the Go search context |
| `Stemmer` | the stemmer table |
| `FastField` | fast-field reading |
| `QualityMetrics` | the search-quality metrics |

### Conventions

- **Parameters.** The tantivy index, schema, tokenizers and segment readers are function-valued parameters. The Go heap is an explicit map.
- **Errors.** Every error path of the decoder, the compiler and the tokenizers is a `Result` error value. This covers Rust `Err` returns, serde errors, and the panic on slicing a string inside a character. The one exception is reading a token stream's current token before the first advance, which is a precondition (see `Tokens.Current` under "Left out").

### Where the source disagrees with itself

- **The prefix variant.** The query type at code 3 is `TermPrefixQuery` in `rust/src/queries/models.rs`. `convert.rs` matches a variant it calls `SingleTermPrefixQuery` for it, and builds a phrase-prefix query from the first term only. The model gives `TermPrefixQuery` that meaning.
- **The nested group's boost.** `models.rs` gives a nested `BoolQuery` a boost, and the decoder requires one. `convert.rs` ignores it and never wraps a nested group in a boost. The model does the same (`Convert.NestedBoostIgnored`).
- **Undeclared Go constants.** `testquality/main.go` uses `EveryTermQuery` and `OneOfTermQuery`, plus `AddFieldDefaultWeight` and `SetQueryFromJson`. `searchquerybuilder.go` and `searchcontext.go` do not declare them.
  - The model follows the declared files.
  - Codes 4 to 6 can still be passed as plain integers. The Rust side decodes them and `convert.rs` rejects them as unsupported variants.
- **Phrase terms with positions.** `extract_terms` (`rust/src/tantivy_util/util.rs:16-31`) returns `(position, term)` pairs. `convert.rs:49`, `59` and `72` pass these pairs, or one of them, to `PhraseQuery::new` and `PhrasePrefixQuery::new`. In tantivy those constructors take plain terms; the constructors that take `(offset, term)` pairs are the `new_with_offset` ones, and those also sort the pairs by offset. The model's `Phrase` and `PhrasePrefix` hold the pairs in token-stream order and do not sort them.
- **A test that contradicts the code.** The test at `src/tantivy_util/edge_ngram_tokenizer.rs:157-163` expects "hello" with `min_gram` 4 to yield nothing. The code yields "hell" and "hello", since the word is five bytes long. The model follows the code (`EdgeNgram.HelloWithMinFourExample`).

## Model

| member | source | states |
|---|---|---|
| Json.AsU64 | rust/src/queries/serializers.rs:103-107 | a JSON value reads as a u64 exactly when it is an unsigned integer below 2^64, and then it is that integer |
| Json.AsF64 | rust/src/queries/serializers.rs:130-133 | unsigned integers and floats both read as f64, each as its own value; nothing else does |
| Json.FloatNumber | searchquerybuilder.go:21-25 | a Go `float64` written as JSON reads back as the same f64 |
| Json.IntNumber | searchquerybuilder.go:21-31 | a Go `int` written as JSON reads back as a u64 exactly when it is in [0, 2^64), and always reads as the same f64 |
| QueryModel.KindOf | rust/src/queries/models.rs:5-64 | a payload's query type is `BoolQuery` exactly for the nested group, and `AllQuery` exactly for the match-all payload |
| QueryModel.MakeLeaf | rust/src/queries/serializers.rs:155-193 | the leaf built for a query type has that type and carries the given indices and boost |
| QueryModel.LeafIsMadeFromItsParts | rust/src/queries/serializers.rs:155-193 | every leaf payload is rebuilt by its type, indices and boost, so the six leaf arms lose nothing |
| Serializers.QueryTypeFromU64 | rust/src/queries/serializers.rs:8-20 | a code decodes to a query type exactly when it is below 8 |
| Serializers.QueryModifierFromU64 | rust/src/queries/serializers.rs:51-58 | a code decodes to a modifier exactly when it is below 3 |
| Serializers.QueryTypeCodeBijection | rust/src/queries/serializers.rs:8-20 | the query-type code table is a bijection between the eight types and the codes 0..7 |
| Serializers.ModifierCodeBijection | rust/src/queries/serializers.rs:51-58 | the modifier table is a bijection between Must, Should, MustNot and the codes 0..2 |
| Serializers.ExtractQueryData | rust/src/queries/serializers.rs:88-94 | the clause's `query` member is returned exactly when it is a JSON object; otherwise the error is a missing `query` field |
| Serializers.DecodeModifier | rust/src/queries/serializers.rs:103-108 | an absent `query_modifier` is a missing-field error; a decoded modifier is the one whose code the member holds |
| Serializers.DecodeQueryType | rust/src/queries/serializers.rs:110-115 | an absent `query_type` is a missing-field error; a decoded type is the one whose code the member holds |
| Serializers.DecodeElement | rust/src/queries/serializers.rs:96-205 | a decoded clause always has a payload, and its modifier and payload kind are the ones the clause's codes name; with a valid modifier and a non-group type, the clause decodes exactly when its `query` member is an object, since the payload members have defaults |
| Serializers.DecodeElements | rust/src/queries/serializers.rs:149-151 | a sequence of clauses decodes exactly when every item does, to one element per item, each the item's own decoding; otherwise the error is that of the first item that fails |
| Serializers.DecodeStrings | rust/src/queries/models.rs:81-85 | a string table decodes exactly when it is an array of strings, and to those strings in order |
| Serializers.DecodeFinalQuery | rust/src/queries/models.rs:79-85 | a document decodes only from an object with `texts`, `fields` and `query`, or from an array of exactly those three members in that order; either way its tables are the members' strings and its root group is the decoded `query`; an empty array is an invalid length at 0 and a non-struct value is rejected |
| Serializers.DecodeRootQuery | rust/src/queries/models.rs:73-77 | the root group decodes only from an object with `subqueries` or a one-member array, and its clauses are the decoded `subqueries` |
| Serializers.ShortDocumentArrayRejected | rust/src/queries/models.rs:79-85 | a document array of one or two decodable members fails with an invalid length at the first missing index |
| Serializers.TrailingDocumentMembersRejected | rust/src/queries/models.rs:79-85 | a document array whose three members decode but which has more members is rejected |
| Serializers.PositionalDocumentExample | rust/src/queries/models.rs:79-85 | `[["foo"], ["title"], [[]]]` decodes to the document with those tables and no clauses |
| Serializers.ModifierCheckedFirst | rust/src/queries/serializers.rs:103-108 | a bad or missing modifier is the error reported, whatever else is wrong with the clause |
| Serializers.QueryTypeCheckedSecond | rust/src/queries/serializers.rs:110-115 | with a good modifier, a bad or missing query type is the error reported |
| Serializers.LeafDefaults | rust/src/queries/serializers.rs:117-136 | a clause with a modifier, a leaf type and a `query` object always decodes, to a leaf of that type, whatever its index and boost members hold: a missing or non-u64 index reads as 0, a missing or non-numeric boost as 1, and present values are kept |
| Serializers.PayloadObjectRequired | rust/src/queries/serializers.rs:155-157 | a leaf clause whose `query` is missing or not an object is rejected as missing `query` |
| Serializers.BoolBoostRequired | rust/src/queries/serializers.rs:139-148 | a group clause without a numeric `boost` is rejected as missing `boost`, even though the group's boost is never used |
| WireEncoding.EncodePayload | rust/src/queries/models.rs:24-64 | every payload is written with its boost as a JSON number |
| WireEncoding.EncodeStrings | rust/src/queries/models.rs:81-85 | a string table is written as an array of its strings in order |
| WireEncoding.ElementRoundTrip | rust/src/queries/serializers.rs:96-205 | decoding an encoded clause gives the clause back, for every clause whose codes and indices fit in u64 |
| WireEncoding.ElementsRoundTrip | rust/src/queries/serializers.rs:139-154 | decoding an encoded clause list gives the list back |
| WireEncoding.StringsRoundTrip | rust/src/queries/models.rs:81-85 | decoding an encoded string table gives the table back |
| WireEncoding.FinalQueryRoundTrip | rust/src/queries/models.rs:79-85 | decoding an encoded document gives the document back |
| WireEncoding.PositionalRoundTrip | rust/src/queries/models.rs:73-85 | the positional array form of a document decodes to the same document as its object form |
| Text.Utf8Width | src/tantivy_util/edge_ngram_tokenizer.rs:28 | a character takes 1 to 4 bytes in UTF-8, and 1 exactly when it is ASCII |
| Text.ByteLenAppend | src/tantivy_util/edge_ngram_tokenizer.rs:28 | the byte length of a concatenation is the sum of the byte lengths |
| Text.ByteLenBounds | src/tantivy_util/edge_ngram_tokenizer.rs:28 | a string's byte length lies between its character count and four times it, and equals the count for ASCII |
| Text.CharsInBytes | src/tantivy_util/edge_ngram_tokenizer.rs:28 | a byte offset is a character boundary exactly when some character prefix has that byte length, which is then the result |
| Text.WordLen | src/tantivy_util/edge_ngram_tokenizer.rs:31 | a word runs up to, and not including, the first whitespace character |
| Text.SplitWhitespace | src/tantivy_util/edge_ngram_tokenizer.rs:31 | every piece is a non-empty word with no whitespace in it |
| Text.SplitWhitespaceKeepsEverythingElse | src/tantivy_util/edge_ngram_tokenizer.rs:31 | the pieces, joined, are the input with its whitespace removed |
| Text.TruncateBytes | src/tantivy_util/edge_ngram_tokenizer.rs:28 | input under the budget is kept; otherwise the result is the prefix of exactly `limit` bytes, or a panic when `limit` falls inside a character |
| Text.AsciiTruncate | src/tantivy_util/edge_ngram_tokenizer.rs:28 | on ASCII input, truncation never panics and keeps the first `limit` characters |
| Text.SplitLeadingWord | src/tantivy_util/edge_ngram_tokenizer.rs:31 | a word followed by whitespace is the first piece, and splitting goes on after that whitespace |
| Text.SplitTwoWords | src/tantivy_util/edge_ngram_tokenizer.rs:31 | two words with one space between them split into exactly those two words |
| Text.SplitThreeWords | src/tantivy_util/edge_ngram_tokenizer.rs:31 | three words with single spaces between them split into exactly those three words |
| Tokens.Advance | src/tantivy_util/edge_ngram_tokenizer.rs:57-65 | advancing succeeds exactly while tokens remain, moves on by one, and leaves an exhausted stream unchanged |
| Tokens.Current | src/tantivy_util/edge_ngram_tokenizer.rs:67-69 | the current token is one of the stream's tokens |
| Tokens.AdvanceAnswers | src/tantivy_util/edge_ngram_tokenizer.rs:57-65 | after k calls, the j-th call answered true exactly when a token remained, and the cursor stopped at the end |
| Tokens.CurrentAfterAdvances | src/tantivy_util/edge_ngram_tokenizer.rs:57-69 | after j successful advances over a new stream, the current token is the j-th token |
| Tokens.ProcessYieldsRemaining | rust/src/tantivy_util/util.rs:24-25 | draining a stream hands the sink exactly the tokens not yet visited, in order |
| Tokens.ProcessFresh | rust/src/tantivy_util/util.rs:22-25 | draining a new stream hands the sink every token in order |
| Terms.ExtractText | rust/src/tantivy_util/util.rs:9-14 | a stored value yields text exactly when it is a string, and then that string |
| Terms.PairTerms | rust/src/tantivy_util/util.rs:24-25 | each token becomes its position paired with a term of the field and the token's text |
| Terms.ExtractTerms | rust/src/tantivy_util/util.rs:16-31 | a missing tokenizer is an error; zero tokens is the zero-terms error; extraction succeeds exactly when a tokenizer exists and yields tokens, with one (position, term) pair per token, all on the given field |
| Convert.OccurMappingBijective | rust/src/queries/convert.rs:119-126 | Must, Should and MustNot map one-to-one onto tantivy's three occurrences |
| Convert.TryBoostWrapsOnce | rust/src/queries/convert.rs:92-102 | boosting keeps the occurrence, wraps the query at most once and can be undone, and boost 1 leaves the query bare |
| Convert.ResolveFieldAndText | rust/src/queries/convert.rs:29-35 | errors are reported in the order field index, text index, field name; success gives the schema field and the text named by the indices |
| Convert.ElementToQuery | rust/src/queries/convert.rs:20-90 | a clause compiles exactly when its indices, names, terms and sub-clauses are all valid; the result is the clause's occurrence with a phrase or phrase prefix of exactly the terms the field's analyzer gives for the clause's text (only the first for a term prefix), boosted unless the boost is 1.0, and for a group one such result per child in order; the error is the first failed check, in the order field index, text index, field name, tokenizer, zero terms, phrase length, or the first failing child's; a clause without payload or of an unsupported kind is its own error |
| Convert.LeafTerms | rust/src/queries/convert.rs:29-46 | a leaf yields terms exactly when it resolves and its text analyses to at least one token, and they are then the analyzer's tokens paired with the field; otherwise the resolution error, the missing-tokenizer error or the zero-terms error |
| Convert.LowersUnique | rust/src/queries/convert.rs:20-90 | what a clause compiles to is determined by the clause, the tables, the schema and the analyzers: two results that both lower it are equal |
| Convert.ElementsToQueries | rust/src/queries/convert.rs:76-83 | the list compiles exactly when each clause does, one query per clause; otherwise the error is that of the first failing clause |
| Convert.ConvertToTantivy | rust/src/queries/convert.rs:10-117 | empty tables are the only cause of the empty-tables error; otherwise the result is a boolean query with one clause per top-level clause, each what that clause compiles to (terms, field, boost and occurrence as for ElementToQuery); any other error is that of the first clause that fails |
| Convert.NeverEmptyTablesError | rust/src/queries/convert.rs:15-17 | no clause, however nested, reports the empty-tables error; only the document-level check does |
| Convert.ParseQueryFromJson | rust/src/queries/convert.rs:128-135 | a document that fails to decode gives the decoder's error; otherwise the result is the compiled document |
| Convert.UnsupportedKindsRejected | rust/src/queries/convert.rs:85 | term, every-term, one-of-term and match-all clauses are rejected as unsupported variants |
| Convert.LeafTermsUsed | rust/src/queries/convert.rs:39-74 | a phrase of one term is rejected; longer phrases and phrase prefixes use all the extracted terms; a single-term prefix uses only the first |
| Convert.NestedBoostIgnored | rust/src/queries/convert.rs:76-83 | two groups that differ only in boost compile to the same query |
| Convert.WireDocumentCompiles | rust/src/queries/convert.rs:128-135 | parsing a document written in the shape the decoder reads compiles that document |
| EdgeNgram.Grams | src/tantivy_util/edge_ngram_tokenizer.rs:35-45 | the grams of one word are its byte prefixes of lengths n..hi, one per length, at the word's position; slicing fails exactly when one of those lengths is inside a character |
| EdgeNgram.WordTokens | src/tantivy_util/edge_ngram_tokenizer.rs:32-36 | a word shorter than `min_gram` bytes yields nothing; a longer one yields one gram per length from `min_gram` to `min(max_gram, length)` |
| EdgeNgram.TokenizeWords | src/tantivy_util/edge_ngram_tokenizer.rs:31-46 | succeeds exactly when no word's grams cut inside a character; then the tokens at each word's index are exactly that word's grams (its byte prefixes of `min_gram..min(max_gram, len)` bytes, none below `min_gram`), every token is a prefix of its word within the gram bounds, and positions never decrease; otherwise the error is the first failing word's |
| EdgeNgram.Tokenize | src/tantivy_util/edge_ngram_tokenizer.rs:27-49 | a truncation inside a character is the tokenizer's error; otherwise, over the words of the truncated text numbered from 0, it succeeds exactly when no word's grams cut inside a character, the tokens at each word's index are exactly that word's grams, and the error is the first failing word's |
| EdgeNgram.TokenStream | src/tantivy_util/edge_ngram_tokenizer.rs:48 | the stream starts before the first of exactly the tokenizer's tokens |
| EdgeNgram.AsciiMatchesReference | src/tantivy_util/edge_ngram_tokenizer.rs:27-49 | on ASCII input the tokenizer never panics and yields the character-counted reference list |
| EdgeNgram.HelloMyFriendExample | src/tantivy_util/edge_ngram_tokenizer.rs:82-106 | "hello my friend" with grams 2..5 and budget 20 yields he, hel, hell, hello, my, fr, fri, frie, frien at positions 0, 1, 2 |
| EdgeNgram.WithLimitExample | src/tantivy_util/edge_ngram_tokenizer.rs:108-128 | with a budget of 10 bytes, "friend" is cut to "f", which is too short, so only the grams of "hello" and "my" remain |
| EdgeNgram.MinGramExample | src/tantivy_util/edge_ngram_tokenizer.rs:130-147 | "hi my" with grams 2..3 yields "hi" at 0 and "my" at 1, since the longest gram is cut to the word length |
| EdgeNgram.EmptyInputNoTokens | src/tantivy_util/edge_ngram_tokenizer.rs:149-155 | empty input yields no tokens, whatever the settings |
| EdgeNgram.HelloWithMinFourExample | src/tantivy_util/edge_ngram_tokenizer.rs:157-163 | "hello" with grams 4..10 yields "hell" and "hello" |
| EdgeNgram.MultiByteWordPanics | src/tantivy_util/edge_ngram_tokenizer.rs:35-37 | a word of one two-byte character panics with a one-byte gram |
| EdgeNgram.SafeGrams | src/tantivy_util/edge_ngram_tokenizer.rs:35-45 | the character-counted grams are the word's prefixes of n..hi characters, with their byte lengths as offsets |
| EdgeNgram.SafeTokenizeAgreesOnAscii | src/tantivy_util/edge_ngram_tokenizer.rs:27-49 | on ASCII input the panic-free tokenizer yields exactly what the original yields |
| EdgeNgram.SafeTokenizeHandlesMultiByte | src/tantivy_util/edge_ngram_tokenizer.rs:35-37 | on the input that panics the original, the panic-free tokenizer yields the whole character with its two-byte offset |
| EdgeNgramLegacy.LegacyGrams | src/tantivy_go/edge_ngram_tokenizer.rs:32-44 | every legacy gram is a character prefix of the word of length in `min_gram..max_gram`, at position 0 |
| EdgeNgramLegacy.LegacyGramsEmpty | src/tantivy_go/edge_ngram_tokenizer.rs:33-34 | a word shorter than `min_gram` characters, or `min_gram` above `max_gram`, yields nothing |
| EdgeNgramLegacy.LegacyTokenizeWords | src/tantivy_go/edge_ngram_tokenizer.rs:31-45 | every legacy token is at position 0, within the gram bounds, with as many characters as its offset |
| EdgeNgramLegacy.LegacyTokenize | src/tantivy_go/edge_ngram_tokenizer.rs:27-48 | the legacy tokenizer fails exactly when the byte truncation does, and every token is at position 0 within the gram bounds |
| EdgeNgramLegacy.LegacyTokenStream | src/tantivy_go/edge_ngram_tokenizer.rs:47 | the stream starts before the first of exactly the legacy tokenizer's tokens |
| EdgeNgramLegacy.LegacyWordsMatch | src/tantivy_go/edge_ngram_tokenizer.rs:31-45 | over any words, the legacy tokens are the character-counted reference with every position set to 0 |
| EdgeNgramLegacy.LegacyAgreesUpToPosition | src/tantivy_go/edge_ngram_tokenizer.rs:27-48 | on ASCII input the two tokenizers yield the same tokens except that the legacy one puts all of them at position 0 |
| SearchQueryBuilder.NewQueryBuilder | searchquerybuilder.go:51-57 | a new builder is consistent, and its field map is never allocated |
| SearchQueryBuilder.AddText | searchquerybuilder.go:59-67 | a known text returns its index unchanged; a new one is appended at the end; the text table stays a two-way index |
| SearchQueryBuilder.AddField | searchquerybuilder.go:69-77 | lookup is in the field map, but the new index is written into the text map, and the field is appended even when already listed |
| SearchQueryBuilder.Query | searchquerybuilder.go:79-92 | one clause is appended with the text's interned index, and while the field map is empty every field gets a fresh index |
| SearchQueryBuilder.BooleanQuery | searchquerybuilder.go:94-103 | the sub-builder's clauses are appended as one group, unchanged, and the parent's tables are not touched |
| SearchQueryBuilder.FieldsNeverWritten | searchquerybuilder.go:69-77 | the field map stays empty through every builder call, so no field is ever found again |
| SearchQueryBuilder.FieldsDuplicated | searchquerybuilder.go:69-77 | two clauses on "title" list the field twice |
| SearchQueryBuilder.FieldNameShadowsText | searchquerybuilder.go:74 | a field name that later appears as a text reuses the field's index as a text index, so the second clause searches the wrong text |
| SearchQueryBuilder.NestedIndicesMisread | searchquerybuilder.go:94-103 | a group's clauses keep the sub-builder's indices and are read against the parent's tables, so (body, bar) reads as (title, foo) |
| SearchQueryBuilder.AddFieldFixed | searchquerybuilder.go:69-77 | the corrected lookup returns a known field's index and interns a new one, so the field table stays a two-way index |
| SearchQueryBuilder.QueryFixedMeansWhatWasAsked | searchquerybuilder.go:79-92 | with the corrected field interning, each call appends exactly the clause on the given field, text and boost, and consistency is kept |
| SearchQueryBuilder.ReinternAllKeepsMeaning | searchquerybuilder.go:94-103 | re-interning a sub-builder's clauses into the parent's tables keeps what each clause means and only extends the tables |
| SearchQueryBuilder.BooleanQueryFixedMeansWhatWasAsked | searchquerybuilder.go:94-103 | with re-interning, a group means exactly the sub-builder's clauses, and consistency is kept |
| SearchQueryBuilder.EncodePayload | searchquerybuilder.go:21-35 | a field clause is written with its indices and boost; a group is written with a boost only in the corrected encoding |
| SearchQueryBuilder.EncodeElement | searchquerybuilder.go:27-31 | a clause is written with its modifier and type codes and its payload |
| SearchQueryBuilder.EncodeFinalQuery | searchquerybuilder.go:37-41 | a builder with no fields writes `fields` as JSON null, unless the encoding is corrected |
| SearchQueryBuilder.GoCodesDecode | searchquerybuilder.go:5-19 | the Go type codes decode to the Rust types of the same name, except that Go's `None` decodes as the term query; the modifier codes agree |
| SearchQueryBuilder.CorrectedDocumentDecodes | searchquerybuilder.go:105-113 | the corrected document decodes to the translated query, for every clause list with valid codes |
| SearchQueryBuilder.CorrectedDocumentCompiles | searchquerybuilder.go:105-113 | parsing the corrected document compiles the translated query |
| SearchQueryBuilder.GroupClauseRejected | searchquerybuilder.go:33-35 | a group clause as the Go code writes it never decodes; with a valid modifier the error is a missing `boost` |
| SearchQueryBuilder.AsWrittenGroupDocumentRejected | searchquerybuilder.go:94-103 | a document containing such a group clause anywhere is rejected |
| SearchQueryBuilder.NestedBuilderRejected | searchquerybuilder.go:94-103 | any document built after a `BooleanQuery` call is rejected |
| SearchQueryBuilder.EmptyBuilderRejected | searchquerybuilder.go:51-57 | a document built from a new builder is rejected, because its `fields` is null |
| SearchContext.NewSearchContextBuilder | searchcontext.go:64-70 | a new builder points to a new zero context with an empty, allocated weight map; every other object is unchanged |
| SearchContext.SetQuery | searchcontext.go:73-76 | only the query of the builder's context changes |
| SearchContext.SetDocsLimit | searchcontext.go:79-82 | only the limit of the builder's context changes |
| SearchContext.SetWithHighlights | searchcontext.go:85-88 | only the flag of the builder's context changes |
| SearchContext.AddField | searchcontext.go:91-94 | the field gets this weight whether or not it had one; no other field, attribute or object changes |
| SearchContext.AddFieldWithoutWeight | searchcontext.go:97-100 | it is adding the field with weight 1 |
| SearchContext.Build | searchcontext.go:103-105 | the built context is the builder's own object, so a later `SetQuery`, `SetDocsLimit` or `AddField` on the builder shows through it |
| SearchContext.LastWeightWins | searchcontext.go:91-94 | adding a field twice keeps only the second weight |
| SearchContext.BuiltContextSeesLaterCalls | searchcontext.go:103-105 | a setter called after `Build` shows through the context already built |
| SearchContext.ExampleContext | searchcontext.go:108-117 | the example chain builds the context it describes |
| SearchContext.GetFieldWeights | searchcontext.go:46-56 | the two slices are parallel, list every field exactly once, and pair each with its weight |
| Stemmer.CodeOf | rust/src/tantivy_util/stemmer.rs:7-26 | each language has a two-letter code |
| Stemmer.CreateStemmer | rust/src/tantivy_util/stemmer.rs:29-35 | a code is accepted exactly when it is some language's code, and gives that language; otherwise the error names the code |
| Stemmer.TableIsCodeOf | rust/src/tantivy_util/stemmer.rs:7-26 | the table and the per-language codes are the same relation |
| Stemmer.CodesRoundTrip | rust/src/tantivy_util/stemmer.rs:7-35 | each language's code gives that language's stemmer, and no other code does |
| Stemmer.TableInjective | rust/src/tantivy_util/stemmer.rs:7-26 | no language is listed under two codes |
| Stemmer.CaseSensitive | rust/src/tantivy_util/stemmer.rs:29-32 | lookup is exact: "EN" is rejected |
| Stemmer.GoLanguagesAccepted | schemabuilder.go:33-63 | a Go-declared language is accepted exactly when it is not one of the eleven the table lacks |
| Stemmer.TableDeclaredInGo | schemabuilder.go:33-63 | every language of the table is declared on the Go side |
| FastField.ValueOf | rust/src/tantivy_util/fast_field.rs:48-51 | a document contributes a value exactly when its first term resolves to non-empty text, and the value is that text |
| FastField.ReadFastFieldValues | rust/src/tantivy_util/fast_field.rs:9-57 | empty input gives an empty list; the read succeeds exactly when every address's segment has the column, with one value per address in input order; a failure is the error of a segment some address is in |
| FastField.ScatterSegment | rust/src/tantivy_util/fast_field.rs:46-53 | after one segment's documents are visited, every address in that segment holds its own document's value and every other position is as it was |
| QualityMetrics.ExtractIds | testquality/main.go:154-160 | one id per sample, in result order |
| QualityMetrics.Escape | testquality/main.go:187-190 | ':' and '?' become spaces and every other character stays, so the length is kept |
| QualityMetrics.EscapeIdempotent | testquality/main.go:187-190 | escaped text has no ':' or '?', and escaping it again changes nothing |
| QualityMetrics.EffectiveK | testquality/main.go:228-230 | the result is the smaller of k and the ranking's length: k is clamped to the length and otherwise kept |
| QualityMetrics.RelevantSet | testquality/main.go:232-235 | the set holds exactly the relevant ids |
| QualityMetrics.CountHits | testquality/main.go:236-240 | the loop counts the hits among the first k entries, and none when k is not positive |
| QualityMetrics.PrecisionAtK | testquality/main.go:227-242 | NaN exactly when the clamped k is 0; zero for negative k; otherwise hits over k, a value between 0 and 1 |
| QualityMetrics.RecallAtK | testquality/main.go:245-263 | always a number: 0 without relevant ids, otherwise hits over their count, never negative |
| QualityMetrics.HitsOfDistinct | testquality/main.go:236-240 | over a ranking without repeats, the hits are the relevant ids it contains |
| QualityMetrics.RecallAtMostOneWithoutRepeats | testquality/main.go:245-263 | over a ranking without repeats, the hits never exceed the number of relevant entries, so recall is at most 1 |
| QualityMetrics.RecallCanExceedOne | testquality/main.go:254-262 | a ranking that repeats a relevant id counts it twice, so recall over one relevant id can be 2 |

## Left out

- **The foreign-function layers.** The cgo bindings, the C string utilities, and the Go wrappers over index, document and search results are out. They only marshal values across the language boundary.
- **Parsing and printing JSON text.** The model works on the decoded JSON value tree. Serde's error message text is also out, and so is the order in which serde's own derived deserializers report errors for the document-level tables. Errors are kept as distinct error values.
- **f32 rounding.** The Rust side reads boosts as `f64` and rounds them to `f32`. The Go side keeps context weights as `float32`. The model keeps both as exact reals. `boost == 1.0` in `try_boost` is therefore compared before rounding.
- **Go `float64` division in the metrics.** It is exact real division, except for 0/0, which is NaN. Signed zero is out: a negative k gives -0.0 in Go and `Value(0.0)` here.
- **DCG and nDCG.** `CalculateDCG` and `CalculateNDCGAtK` in `testquality/main.go:265-291` use logarithms over floating point. The corpus loading and the driver loop in `main` and `execute` are out as well, and so is the `data.json` corpus, which is not part of this model.
- **Nil sample pointers.** `extractIds` dereferences each sample, and a nil sample pointer panics. The model's samples are values.
- **Segment reader lookup.** `searcher.segment_reader` panics on an ordinal out of range. The model's segment readers are a total function from ordinal to column lookup, so that panic is out. The text of the fast-field error messages is reduced to the two error constructors with their arguments.
- **Hash map visit order.** Go's map iteration order in `GetFieldWeights` and Rust's `HashMap` order in `read_fast_field_values` are left open: the next key is chosen arbitrarily. When several segments fail, which one is reported is open in the same way.
- **Allocation in the search context.** A new Go object is a reference the caller passes in, one not yet in use.
- **SearchQueryBuilder.Translatable.** It admits query-type codes 1 to 6 for field clauses. Code 7, `AllQuery`, has a different payload shape on the Rust side, and the Go builder has no constant for it.
- **SearchQueryBuilder.AddFieldFixed.** It writes the field map. In Go the same correction also needs `NewQueryBuilder` to allocate `fields`, because assigning into a nil map panics. The model's maps are values, so that allocation does not appear.
- **Tokens.Process.** It models only the draining loop of tantivy's `TokenStream::process`, which `extract_terms` uses. Other tokenizers registered with tantivy are parameters.
- Tokens.Current: requires at least one successful advance. `token()` indexes `next_index - 1`, which panics on a stream that was never advanced; the model leaves that call out instead of returning an error.
- Convert.ElementToQuery: phrase queries hold the `(position, term)` pairs in stream order, unsorted (see "Phrase terms with positions" above).
- **What the engine does with a search context.** Running the search and producing highlights happen in the Rust engine; the model stops at the context's contents.

## Findings

| source | as written | input that shows it | evidently intended | confidence | as-written member | corrected member |
|---|---|---|---|---|---|---|
| searchquerybuilder.go:69-77 | `AddField` looks a field up in `fields` but writes its index into `texts`, and `fields` is never allocated | `Query(Must, "title", "foo", …)` then `Query(Must, "body", "title", …)`: the second clause's text index is the field index 0, so it searches "foo" | fields interned in `fields`, each field listed once | not executed | SearchQueryBuilder.FieldNameShadowsText | SearchQueryBuilder.QueryFixedMeansWhatWasAsked |
| searchquerybuilder.go:94-103 | `BooleanQuery` copies the sub-builder's clauses with their indices into the sub-builder's tables, but only the parent's tables are sent | parent `Query(Must, "title", "foo", …)`, sub-builder `Query(Must, "body", "bar", …)`: the nested clause is read as (title, foo) | the sub-builder's strings interned into the parent and its indices renumbered | not executed | SearchQueryBuilder.NestedIndicesMisread | SearchQueryBuilder.BooleanQueryFixedMeansWhatWasAsked |
| searchquerybuilder.go:33-35 | a group is written as `{"subqueries": …}` with no boost, while rust/src/queries/serializers.rs:144-148 requires one | any builder after one `BooleanQuery` call: decoding fails with a missing `boost` | a boost written with every group | not executed | SearchQueryBuilder.NestedBuilderRejected | SearchQueryBuilder.CorrectedDocumentDecodes |
| src/tantivy_util/edge_ngram_tokenizer.rs:35-37 | grams are byte slices `word[0..n]` for n up to the byte length, which panics when n falls inside a character | "é" with `min_gram` 1, `max_gram` 3: `word[0..1]` splits the two-byte character | grams counted in characters, as in the legacy tokenizer | not executed | EdgeNgram.MultiByteWordPanics | EdgeNgram.SafeTokenizeAgreesOnAscii |
