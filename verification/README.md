# Recall, modelled and proved in Dafny

Recall searches text chunks by vector similarity and by words, stores them in Postgres or in SQLite, and
measures how well it finds what it should. This project models that logic and proves what it promises.
`dafny verify dfyconfig.toml` checks everything.

## How it is laid out

Shared

- `Basics.dfy`, `Records.dfy`: shared facts, sorting, runes, chunks, rows and requests.

Ranking

- `TopOrder.dfy`: what `ORDER BY score DESC, id LIMIT n` means. A result is the list in which the i-th hit
  has exactly i hits ahead of it; every ranking below is proved against this one definition.
- `PostgresSearch.dfy`: the four search statements. Candidate generation (two top-K stages and their union)
  is treated as a transformation of the exhaustive query, and the theorems say when it preserves the answer.
  The vector stage is any exact top-K, because ties at its border are unordered.
- `PostgresWitnesses.dfy`: exactly when candidate mode keeps an order and when it is exhaustive. The searches in
  which it is not are made of `Samples.dfy`: tables that a `Put` stores, and scores that a query gives.
- `PostgresBounds.dfy`: how far one page can be trusted. The weighted-sum bound is tight, and RRF has its own.
- `SearchAnswers.dfy`: every answer of both stores on the fields of its rows: which rows, which scores, which order,
  and what is missing.
- `SqliteSearch.dfy`, `Vectors.dfy`: the fusion that the SQLite store runs in Go, the stored bytes, the inner
  product and the norm check.

The store

- `StoreModel.dfy` has `Put` and the deletes as functions on the table, and the laws over every history of
  calls. `Store.dfy` has the loops, the transaction and the rollback on an object that handles share, each
  method proved equal to its function.
- `StoredRows.dfy`: what a stored row holds, when a batch is accepted, what each error says, which rows a delete
  removes, all on fields.
- `PutProtocol.dfy`, `PutOutcomes.dfy`: any number of processes writing one SQLite file, step by step, failing and
  dying between any two steps; the committed table is always the one a serial history makes, successful returns
  are its puts, failed ones have left nothing, and a call on its own gets through.
- `Isolation.dfy`: what an org can see of other orgs in a search, in Postgres and in SQLite.
- `Migrations.dfy`: any number of processes running the migrations, with the lock taken when the transaction
  begins (SQLite) or inside it (Postgres).

Tokens and markup

- `Tokenizers.dfy`, `TokenEncoding.dfy`: the three tokenizers over normalised runes and the text forms their
  tokens are stored and searched in; `TokenLaws.dfy` reads both from the front of a text.
- `Wikitext.dfy`, `WikiLinks.dfy`: stripping nested markup and expanding links, proved on arbitrary text and,
  for properly nested markup of any depth, against the tree it was rendered from.

Evaluation

- `EmbedCache.dfy`, `CacheLaws.dfy`, `CacheOutcomes.dfy`: the embedding cache as an object over files, and that no
  history of calls, model switches and damaged files makes it answer differently from the embedder it wraps; when a
  call succeeds, what it reports otherwise, and what it leaves in the files.
- `Metrics.dfy`, `MicroRecall.dfy`, `Percentiles.dfy`, `MeasureLaws.dfy`: recall, ranks, micro counts and percentiles,
  and what they count.
- `Corpus.dfy`, `Measurement.dfy`: loading a corpus with distractors, and the map from row ids to labels.
  `StoredCorpus.dfy` puts the store behind it: the map that a load returns labels every later search result.

## Premises

- Scores are exact reals. A row that does not match the query has lexical rank 0, and ranks are never
  negative (`internal/store/postgres/searcher.go:132-133`).
- Ids that name embedders and kinds hold no NUL, one id stands for one embedder, an embedder gives the same
  text the same vector, and different texts have different SHA-256 sums.
- The character classes CJK, word, connector, space, meta and other are disjoint.

## What the proofs found

- `internal/store/postgres/searcher.go:214-217` expects the lexical maximum to differ between the two modes.
  Under the premise above it is the same for every K >= 1 (`PostgresSearch.LexicalStageReachesMax`), so alpha
  means the same in both.
- Candidate mode with RRF can put two candidates in the opposite order of exhaustive mode; with the weighted sum
  it cannot. A candidate never overtakes another one exactly if both stages kept it
  (`PostgresWitnesses.RrfKeepsOrderExactly`).
- Candidate mode can miss rows of the exhaustive answer. Knowing only the number n of rows in scope, it is safe
  exactly if n <= K (`PostgresWitnesses.CandidateModeIsExhaustiveExactly`). Knowing the page, it is safe if its
  last score is above a bound (`PostgresSearch.AboveBoundIsExhaustive`, `PostgresBounds.RrfPageIsExhaustive`);
  below the bound of the weighted sum, one more row makes it wrong unseen (`PostgresBounds.BoundIsTight`).
- `hits + misses` of the embedding cache can exceed the texts that were served, because a call that fails has
  already counted what it loaded and stored (`CacheLaws.FailedCallStillCounts`); `CacheLaws.CountersMatch`
  says exactly when they agree.
- Stripping templates never leaves an opening, but stripping tables can
  (`Wikitext.TablesCanRemain`); `Wikitext.OpeningsGoneExactly` says for which delimiters it cannot.
- A percentile has its usual meaning exactly for 0 < p <= 100 (`Percentiles.PercentileCoversShare`).

## Model

| member | source | states |
|---|---|---|
| PostgresSearch.JoinIsUnion | internal/store/postgres/searcher.go:184-194 | Joining the candidate ids back to the table yields exactly the union of the two stages: no row of the table slips in and none is lost |
| PostgresSearch.LexicalStageIsTop | internal/store/postgres/searcher.go:174-183 | The lexical stage is exactly the set of rows that an ordered `ORDER BY rank DESC, id LIMIT K` keeps |
| PostgresSearch.LexicalStageReachesMax | internal/store/postgres/searcher.go:132-183 | For every K >= 1 the lexical stage holds a row that reaches the lexical maximum of the whole scope |
| PostgresSearch.CandidatesWithinScope | internal/store/postgres/searcher.go:166-194 | The candidate set lies inside the scope, has at most 2K rows, and has the same lexical maximum as the scope |
| PostgresSearch.CandidateModeIsFilteredExhaustive | internal/store/postgres/searcher.go:218-236 | Candidate mode with the weighted sum returns the full exhaustive order restricted to the two stages and cut at the limit, scores included |
| PostgresSearch.OutsideScoresAtMostBound | internal/store/postgres/searcher.go:166-227 | Every row in scope that neither stage kept scores at most alpha times the lowest kept vector score plus (1 - alpha) times the lexical floor over the maximum |
| PostgresSearch.AboveBoundIsExhaustive | internal/store/postgres/searcher.go:218-236 | If the last of a full page of candidate results scores above that bound, the page is an exhaustive answer |
| PostgresSearch.CoveringKIsExhaustive | internal/store/postgres/candidates_test.go:94-123 | When K covers the scope, the two modes have the same answers under both fusions |
| PostgresSearch.VectorRankPreserved | internal/store/postgres/searcher.go:262-276 | A row that the vector stage kept has the same vector RANK() among the candidates as among all rows |
| PostgresSearch.LexicalRankPreserved | internal/store/postgres/searcher.go:262-276 | A row that the lexical stage kept has the same lexical RANK() among the candidates as among all rows |
| PostgresSearch.RrfScores | internal/store/postgres/searcher.go:262-276 | Among the candidates no RRF score is lower than in exhaustive mode, a row of both stages keeps its exact score, and none exceeds 2/(k+1) |
| PostgresSearch.BothStagesDominateOutside | internal/store/postgres/searcher.go:262-276 | In exhaustive RRF a row that both stages kept is never beaten by a row that neither kept |
| PostgresSearch.RrfIgnoresAlpha | internal/store/postgres/fusion.go:180-195 | The RRF answers do not depend on the request's alpha, in either mode |
| PostgresWitnesses.WeightedSumNeverReorders | internal/store/postgres/searcher.go:214-227 | Two candidate rows stand in the same order in both modes under the weighted sum |
| PostgresWitnesses.BothStagesNeverOvertake | internal/store/postgres/searcher.go:257-276 | Under RRF a candidate that both stages kept is never put ahead of one that exhaustive mode has ahead of it |
| PostgresWitnesses.RrfKeepsOrderExactly | internal/store/postgres/searcher.go:257-276 | For a candidate kept by given stages: it overtakes nobody in any search that can happen if and only if both stages kept it |
| PostgresWitnesses.AheadStaysAhead | internal/store/postgres/searcher.go:257-276 | In an RRF answer of candidate mode, a row of both stages that is ahead of another result is ahead of it in the full exhaustive order, with the same score |
| PostgresWitnesses.RrfReorders | internal/store/postgres/searcher.go:257-276 | Not every order is kept: three rows that one Put stores, and a query, for which the modes put two candidates in opposite orders under RRF |
| PostgresWitnesses.CandidateModeCanLose | internal/store/postgres/searcher.go:166-194 | For either fusion, every alpha, every limit and every K smaller than the scope there is a search that can happen in which a candidate answer is no exhaustive answer |
| PostgresWitnesses.CandidateModeIsExhaustiveExactly | internal/store/postgres/searcher.go:166-194 | For either fusion, every alpha and every limit: candidate answers over a scope of n rows are always exhaustive answers if and only if n <= K |
| PostgresWitnesses.CandidateModeCanLoseTheBest | internal/store/postgres/searcher.go:166-227 | The loss is more than a tie: a search that can happen whose full page scores strictly below a row that is missing |
| Samples.SampleIsReachable | internal/store/postgres/writer.go:89-103 | The tables of these examples are what one Put leaves in an empty store |
| PostgresBounds.BoundIsTight | internal/store/postgres/searcher.go:166-227 | The weighted-sum bound cannot be lowered: whenever the last score of a full page is below it, one more row leaves both stages and the page as they are and makes the page wrong |
| PostgresBounds.OutsideRrfAtMostBound | internal/store/postgres/searcher.go:257-276 | Every row in scope that neither stage kept has at most the RRF score of a row ranked at the lowest kept vector score and at the lexical floor |
| PostgresBounds.BoundFromCandidates | internal/store/postgres/searcher.go:257-276 | That bound is the same when it is counted among the candidates alone |
| PostgresBounds.RrfPageIsExhaustive | internal/store/postgres/searcher.go:257-276 | A full RRF page of rows that both stages kept, whose last score is above the bound, is an exhaustive answer |
| PostgresBounds.RrfBoundIsReached | internal/store/postgres/searcher.go:257-276 | The bound is the score of every row with these two values, so it cannot be lowered |
| SearchAnswers.ResultsPassTheFilters | internal/store/postgres/searcher.go:103-112 | Every result, in all four statements, is a row of the table and of the org whose document and source are asked for, where they are asked for |
| SearchAnswers.CoveringLimitFindsAll | internal/store/postgres/searcher.go:103-112 | Every such row is a result once the limit, and in candidate mode K, covers the table |
| SearchAnswers.CandidatesAre | internal/store/postgres/searcher.go:166-194 | A row in scope is a candidate if the vector stage kept it, or if it matches and fewer than K matching rows rank higher, ties by id |
| SearchAnswers.WeightedScores | internal/store/postgres/searcher.go:218-227 | For every alpha and in both modes, a result scores alpha times its vector score plus 1 - alpha times its share of the largest rank in scope |
| SearchAnswers.RrfScoresAre | internal/store/postgres/searcher.go:257-276 | A result scores 1/(60 + rank) on both sides, where a rank counts the searched rows that are strictly better |
| SearchAnswers.ResultsAreOrdered | internal/store/postgres/searcher.go:225-227 | Results stand by score descending, then id; there are `limit` of them, or as many as there are searched rows |
| SearchAnswers.MissingFromWeighted | internal/store/postgres/searcher.go:218-227 | A searched row that is missing has a full page ahead of it, by the weighted sum it would have |
| SearchAnswers.MissingFromRrf | internal/store/postgres/searcher.go:257-276 | The same by its reciprocal ranks |
| SearchAnswers.SearchAnswersAsSet | internal/store/postgres/searcher.go:446-520 | A search forms and scores its rows by the mode, fusion and K its handle is set to |
| TopOrder.TopIsUnique | internal/store/sqlite/searcher.go:462-474 | A result under (score desc, id) is determined by the set of scored rows, and a smaller limit gives a prefix of a larger one's |
| TopOrder.TopOfSubset | internal/store/postgres/searcher.go:218-227 | The top of a subset of rows is the full order filtered to the subset and then cut |
| SqliteSearch.FindMaxLexical | internal/store/sqlite/searcher.go:444-447 | The first pass finds the largest lexical score, or 0 |
| Sorting.Sort | internal/store/sqlite/searcher.go:462-471 | The in-place sort leaves a permutation ordered by the given order: score descending then id for hits, size for samples |
| SqliteSearch.Fuse | internal/store/sqlite/searcher.go:443-475 | The two passes, the sort and the cut compute exactly the best `limit` of the fused rows under (score desc, id) |
| SqliteSearch.ScanCandidates | internal/store/sqlite/searcher.go:343-380 | Yields the rows of the org that pass both filters, in table order with their inner products, or the first of them whose stored vector has a wrong length |
| SqliteSearch.LexicalScores | internal/store/sqlite/searcher.go:382-424 | Yields the negated bm25 of exactly the scanned rows that match, and nothing for an empty expression |
| SqliteSearch.SearchRows | internal/store/sqlite/searcher.go:243-265 | Checks the tokens, scans the org's filtered rows, attaches lexical scores by id (a row without one keeps 0) and fuses; a bad token or stored vector is reported, tokens first |
| SqliteSearch.FuseIgnoresScanOrder | internal/store/sqlite/searcher.go:63-74 | The answer depends on the set of candidate rows alone |
| SqliteSearch.SmallerLimitIsPrefix | internal/store/sqlite/searcher.go:462-475 | The answer for a smaller limit is a prefix of the answer for a larger one |
| SqliteSearch.ScalingLexicalChangesNothing | internal/store/sqlite/searcher.go:428-461 | Multiplying every lexical score by a positive constant changes neither order nor fused scores |
| SqliteSearch.NoLexicalHit | internal/store/sqlite/searcher.go:440-461 | With no lexical hit every result scores alpha times its vector score |
| SqliteSearch.AlphaOneIsPureVector | internal/store/sqlite/searcher.go:455-471 | With alpha = 1 the answer is the pure vector order, for every lexical input |
| SqliteSearch.ScoresAreBounded | internal/store/sqlite/searcher.go:443-461 | With validated vectors every fused score lies in [-1.001 alpha, 1.001 alpha + (1 - alpha)] |
| SqliteSearch.StoresAgree | internal/store/sqlite/searcher.go:428-475 | On the same scored rows the SQLite sort and the exhaustive Postgres statement return the same ids, order and scores |
| SearchAnswers.FoundPassTheFilters | internal/store/sqlite/searcher.go:55-58 | Every SQLite result shows the fields, the inner product and the negated bm25 of a row of the org whose document and source are asked for, where they are asked for |
| SearchAnswers.FoundScores | internal/store/sqlite/searcher.go:443-461 | For every alpha, a result scores alpha times its vector score plus 1 - alpha times its share of the largest lexical score in scope |
| SearchAnswers.FoundAreOrdered | internal/store/sqlite/searcher.go:462-475 | Results stand by score descending, then id, and are as many as limit and scope allow |
| SearchAnswers.FoundOrBehind | internal/store/sqlite/searcher.go:443-475 | Every row in scope is a result with its weighted sum, or a full page stands ahead of it by that sum |
| SearchAnswers.CoveringLimitFindsAllRows | internal/store/sqlite/searcher.go:55-74 | Every row in scope is a result when the limit covers the table |
| Vectors.EncodeVector | internal/store/sqlite/encode.go:59-67 | The buffer holds the four little-endian bytes of each 32-bit pattern, in order |
| Vectors.DecodeVector | internal/store/sqlite/encode.go:74-86 | Decoding accepts exactly the blobs of the right length and recovers the patterns |
| Vectors.WordRoundTrip | internal/store/sqlite/encode.go:59-86 | A 32-bit pattern and its four bytes determine each other |
| Vectors.BytesAreInjective | internal/store/sqlite/encode.go:55-67 | Different vectors have different bytes |
| Vectors.BytesAreLittleEndian | internal/store/sqlite/encode.go:59-67 | Component i stands in bytes 4i to 4i + 3, the lowest byte first |
| Vectors.ValidateVector | internal/store/sqlite/encode.go:242-258 | The loop accepts exactly the vectors of 1024 components whose squared norm is in [0.999, 1.001], and reports a wrong length or the squared norm otherwise |
| Vectors.Dot | internal/store/sqlite/encode.go:100-107 | The loop computes the inner product |
| Vectors.DotProductMeans | internal/store/sqlite/encode.go:100-107 | Changing component i of one vector by d changes the inner product by d times component i of the other; the zero vector has product 0 |
| Vectors.CauchySchwarz | internal/store/sqlite/encode.go:100-107 | The square of the inner product is at most the product of the squared norms |
| Vectors.ValidDotIsBounded | internal/store/sqlite/encode.go:100-107 | Two validated vectors have an inner product between -1.001 and 1.001 |
| Tokenizers.End | internal/lexical/internal/asciiword/asciiword.go:93-108 | The scan with one rune of lookahead ends where the word token ends |
| Tokenizers.CjkRunEnd | internal/lexical/internal/asciiword/asciiword.go:111-118 | The scan ends at the end of the maximal CJK run |
| Tokenizers.IdentifiersAreOneToken | internal/lexical/internal/asciiword/asciiword.go:89-108 | A text is exactly one word token if and only if it is an identifier: word runes, and connectors only in front of word runes |
| Tokenizers.PieceShapes | internal/lexical/bigram/bigram.go:76-97 | Every piece of every text is an identifier or a non-empty run of CJK runes |
| Tokenizers.AppendBigrams | internal/lexical/bigram/bigram.go:108-118 | Appends the overlapping pairs of a run, or the single rune of a run of one |
| Tokenizers.BigramTokenize | internal/lexical/bigram/bigram.go:76-97 | The loop computes the tokens of the pieces, CJK runs cut into bigrams |
| Tokenizers.KagomeTokenize | internal/lexical/kagome/kagome.go:132-153 | The loop computes the tokens of the same pieces, CJK runs cut by the analyser; the token filter never drops a word run |
| Tokenizers.AppendMorphemes | internal/lexical/kagome/kagome.go:160-199 | Keeps the base form or surface of every morpheme that is not a function word and that may be a token |
| Tokenizers.SeparatorsSplit | internal/lexical/bigram/bigram.go:76-97 | Tokenize(a + sep + b) is Tokenize(a) followed by Tokenize(b), for bigram and for kagome with any analyser |
| Tokenizers.ExactlySeparatorsSplit | internal/lexical/internal/asciiword/asciiword.go:62-108 | Exactly the runes that are neither CJK, word nor connector have that property |
| Tokenizers.KagomeKeepsBigramWords | internal/lexical/kagome/kagome.go:124-153 | Whatever the analyser returns, the tokens from word runs are the same in both tokenizers, in the same order |
| Tokenizers.TokenizersEmitTokens | internal/lexical/kagome/kagome.go:201-219 | Every token of all three tokenizers is non-empty and free of white space and meta characters |
| Tokenizers.RunFromBigrams | internal/lexical/bigram/bigram.go:108-118 | A CJK run of n >= 2 runes has n - 1 bigrams and is recovered from them |
| TokenLaws.CjkRunThenRest | internal/lexical/bigram/bigram.go:76-118 | A maximal CJK run gives its overlapping pairs, or its one rune, before the tokens of the rest |
| TokenLaws.WordThenRest | internal/lexical/internal/asciiword/asciiword.go:62-108 | A maximal word run with its inner connectors is one token of both tokenizers before those of the rest |
| TokenLaws.OtherRuneThenRest | internal/lexical/bigram/bigram.go:76-97 | Any other rune is dropped, a connector outside words included |
| TokenLaws.MorphemesThenRest | internal/lexical/kagome/kagome.go:160-219 | A maximal CJK run gives, in order, one token per morpheme that is no symbol, particle or auxiliary verb and whose base form, or surface without one, may be a token |
| TokenLaws.KeptIsUnique | internal/lexical/kagome/kagome.go:160-219 | These conditions determine the tokens |
| TokenLaws.UnionIsBoth | internal/lexical/union/union.go:97-101 | The union has all bigrams first and then all morphemes |
| TokenLaws.JoinedTexts | internal/store/postgres/encode.go:130-136 | Lexeme texts are joined by a blank and tsqueries by a bar between blanks, whatever the lists |
| TokenLaws.JoinedPhrases | internal/store/sqlite/encode.go:188-203 | Match expressions quote each token and are joined by OR |
| TokenEncoding.ValidateTokens | internal/store/sqlite/encode.go:214-226 | Accepts exactly the token lists without white space and meta characters; otherwise names the first offender and its fault |
| TokenEncoding.EncodeLexemeText | internal/store/sqlite/encode.go:162-168 | Succeeds exactly for accepted tokens and joins them with blanks |
| TokenEncoding.LexemeTextSplitsBack | internal/store/sqlite/encode.go:155-168 | Splitting the stored text on white space gives the token list back |
| TokenEncoding.TsQueryOperands | internal/store/postgres/encode.go:130-136 | The tsquery text has exactly the tokens as operands |
| TokenEncoding.MatchExpressionPhrases | internal/store/sqlite/encode.go:188-203 | The FTS5 match expression quotes exactly the tokens, in order |
| TokenEncoding.TokenizerOutputSurvives | internal/lexical/union/union.go:97-101 | No output of bigram, kagome or union is rejected, and all three text forms carry exactly its tokens |
| StoreModel.BatchErrorMeans | internal/store/sqlite/writer.go:122-191 | Validation accepts exactly the valid batches: org, non-empty, ids, contents, external ids positive and pairwise distinct |
| StoreLaws.UpsertKeepsConsistent | internal/store/sqlite/writer.go:62-78 | One insert-or-replace keeps ids and (org, external id) pairs unique, touches one row, and reuses the id of a conflicting row |
| StoreLaws.SuccessfulPut | internal/store/sqlite/writer.go:250-303 | A successful Put returns one distinct id per chunk in order, holding exactly that chunk; known external ids keep their id, other ids are new, other rows are untouched |
| StoredRows.PutStores | internal/store/sqlite/writer.go:227-303 | Under the i-th id the i-th chunk is stored with its external id and the org of the call, its vector, its tokens to be read back by splitting, and the identity of the handle; for new rows and for replaced ones |
| StoredRows.PutIds | internal/store/sqlite/writer.go:62-78 | A chunk whose external id the org has keeps that row's id, every other gets an id above all; the ids are distinct and no other row changes |
| StoredRows.PutSucceedsOnFields | internal/store/sqlite/writer.go:90-303 | Exactly when Put succeeds, on the fields of the chunks, vectors, tokens, rows and faults |
| StoredRows.PutReports | internal/store/sqlite/writer.go:90-303 | Every error says what was wrong with the first thing that was, in the order of the steps, and the table is as before |
| StoredRows.DeleteByIdRemoves | internal/store/sqlite/writer.go:311-324 | Removes the row with this id if it is the org's, and nothing else |
| StoredRows.DeleteBySourceRemoves | internal/store/sqlite/writer.go:330-334 | Removes and counts exactly the org's rows with this source id |
| StoredRows.DeleteByDocumentRemoves | internal/store/sqlite/writer.go:344-348 | Removes and counts exactly the org's rows with this document id |
| StoredRows.DeleteReports | internal/store/sqlite/writer.go:355-371 | Without an org or when the statement fails it says so and removes nothing |
| StoreLaws.PutSucceedsExactly | internal/store/sqlite/writer.go:90-104 | Exactly when Put succeeds; a Put that reports an error has changed nothing |
| StoreLaws.PutKeepsInv | internal/store/sqlite/writer.go:250-303 | Put keeps the table's invariant: unique ids, unique external ids, one embedder and tokenizer |
| StoreLaws.RepeatedPut | internal/store/sqlite/writer.go:62-78 | Repeating a Put whose chunks all carry external ids returns the same ids and the same table |
| StoreLaws.HistoriesKeepInv | internal/store/sqlite/writer.go:82-371 | Over every history of Put and delete calls from any handles, ids and external ids are unique and all rows share one identity |
| StoreLaws.HistoriesStoreValidVectors | internal/store/sqlite/encode.go:242-258 | Over every history only vectors that passed the norm check are stored |
| StoreLaws.IdsAreNeverReused | internal/store/sqlite/writer.go:82-104 | Over every history an id that a later row gets is larger than every id before |
| StoreLaws.CallsStayInTheirOrg | internal/store/postgres/writer.go:65-81 | A call for one org leaves the rows of every other org exactly as they were |
| StoreLaws.HistoriesStayInTheirOrg | internal/store/postgres/writer.go:65-375 | A history of calls of other orgs leaves an org's rows exactly as they were |
| StoreLaws.DeleteRemovesExactly | internal/store/postgres/writer.go:315-375 | A delete removes exactly the targeted rows of its org and reports their number |
| Store.ValidateChunks | internal/store/sqlite/writer.go:122-139 | The loop finds the first error that validation is specified to report |
| Store.ValidateExternalIdsAreDistinct | internal/store/sqlite/writer.go:173-191 | The map of seen external ids finds the first duplicate, with both indices |
| Store.EncodeContents | internal/store/sqlite/writer.go:198-247 | The loop yields vector and lexeme text of every chunk in order, or the first violation |
| Store.Store.Put | internal/store/sqlite/writer.go:90-104 | The imperative Put computes exactly the specified result and table, and keeps the invariant |
| Store.Store.InsertChunks | internal/store/sqlite/writer.go:250-269 | Begin, insert, commit or roll back comes to the specified transaction |
| Store.Store.InsertWithinTx | internal/store/sqlite/writer.go:277-303 | Checks the identity before the first insert, then inserts in order up to the first failure |
| Store.Store.InsertChunk | internal/store/sqlite/writer.go:62-78 | Inserts a row or replaces the one with the same org and external id, and returns its id |
| Store.Store.AssertSameEmbedderAndTokenizer | internal/store/sqlite/store.go:252-277 | Reports a row of another embedder or tokenizer, whichever org it belongs to, if there is one; the embedder first |
| Store.Store.Delete | internal/store/sqlite/writer.go:311-324 | Removes the chunk if it is the org's; that it was not there is no error |
| Store.Store.DeleteBy | internal/store/sqlite/writer.go:355-371 | Removes the targeted rows of the org and counts them |
| PutProtocol.StepKeepsSerial | internal/store/sqlite/store.go:46-54 | Every step of every process, failures and deaths included, keeps the committed table equal to a serial history |
| PutProtocol.CommittedIsPut | internal/store/sqlite/writer.go:277-303 | The interleaved steps of a committing transaction come to one atomic Put |
| PutProtocol.RunsAreSerial | internal/store/sqlite/writer.go:250-303 | In every state of every interleaving each successful return is what that call returns in the serial history |
| PutProtocol.CommittedRowsShareOneIdentity | internal/store/sqlite/store.go:252-277 | In every state of every interleaving the committed rows share one embedder and tokenizer and keep unique ids |
| PutProtocol.WithoutTheLock | internal/store/sqlite/store.go:46-54 | Why the lock is needed: two identities both pass the check on the empty table, and after both inserts the identity is no longer one |
| PutOutcomes.CommitReturns | internal/store/sqlite/writer.go:250-269 | A commit returns one id per chunk and publishes each chunk, vector and token list under its id |
| PutOutcomes.CheckDecides | internal/store/sqlite/store.go:252-277 | The check lets a call go on if and only if every committed row has its identity, and names a differing row otherwise |
| PutOutcomes.OnlyLoggedStepsPublish | internal/store/sqlite/writer.go:250-303 | The committed table changes by commits and deletes only, each exactly as its call would on its own |
| PutOutcomes.SuccessIsCommit | internal/store/sqlite/writer.go:250-269 | A call is told success by its commit and in no other way |
| PutOutcomes.EachPutWasReturned | internal/store/sqlite/writer.go:250-269 | Over every run, the puts of the serial history and the successful returns correspond one to one |
| PutOutcomes.FailureAddedNothing | internal/store/sqlite/writer.go:250-269 | Over every run, a call that was told it failed has published nothing since it arrived |
| PutOutcomes.FailuresAreSerial | internal/store/sqlite/writer.go:90-303 | Over every run, a failed call was told what Put reports on the table of some serial prefix of the history under some fault |
| PutOutcomes.AloneItCommits | internal/store/sqlite/writer.go:250-303 | From any state with the file unlocked, an accepted call of the table's identity gets through on its own steps and changes nothing else |
| PutOutcomes.AloneItIsRefused | internal/store/sqlite/store.go:252-277 | A call of another identity is told so on its own steps, the table and the lock as before |
| PutOutcomes.TransactionsCanFail | internal/store/sqlite/writer.go:250-303 | At its next insert or at its commit a transaction can fail; it then returns that error, unlocks the file and leaves the table as it was |
| Isolation.SearchSeesItsOrgOnly | internal/store/postgres/searcher.go:103-112 | Two tables that agree on an org's rows and on the identity check give that org the same answers in all four mode and fusion combinations |
| Isolation.OnlyTheCheckDiffers | internal/store/postgres/searcher.go:385-420 | For a valid query the answers on two such tables are the same if and only if the identity check has the same outcome |
| Isolation.OthersNeverChangeASearch | internal/store/postgres/writer.go:315-375 | Whatever other orgs write and delete, an org that has a row gets the same search outcome before and after |
| Isolation.ResultsAreInScope | internal/store/postgres/searcher.go:103-112 | Results are rows of the own org that pass both filters, each at most once, at most `limit` |
| Isolation.SearchReports | internal/store/postgres/searcher.go:385-520 | Exactly when a search answers, and which fault it reports otherwise, on the fields of request, rows, vector and tokens |
| Isolation.SqliteSeesItsOrgOnly | internal/store/sqlite/searcher.go:55-74 | In SQLite membership and vector scores never depend on other orgs or on the scan order; and where the index answers alike for the own rows, the result does not either |
| Isolation.SqliteResultsAreInScope | internal/store/sqlite/searcher.go:55-74 | Every SQLite result is a row of the own org that passes both filters, scored by its inner product |
| Migrations.StepKeepsInv | internal/store/postgres/migrate.go:108-160 | Every step of every process keeps: applied scripts are a prefix of the names, the record table is that prefix, the lock is exclusive |
| Migrations.ScriptsAreAPrefix | internal/store/postgres/migrate.go:51-68 | In every state of every run, under either way of locking, the applied scripts are a duplicate-free prefix of the names, the record table is exactly that prefix, and a successful return means the whole list is applied |
| Migrations.ScriptsOnlyGrow | internal/store/sqlite/migrate.go:107-156 | An applied script is never lost or applied again |
| Migrations.RecordNeverConflicts | internal/store/sqlite/migrate.go:126-156 | Under the lock, recording a script never meets an existing record |
| Migrations.OnlyCommitsApply | internal/store/postgres/migrate.go:108-160 | What is applied changes only when a process commits the script it ran, by exactly the next script and its record |
| Migrations.AloneItMigrates | internal/store/postgres/migrate.go:51-68 | From any reachable state with the lock free, a process on its own finishes: everything applied once, in order and recorded, and no error |
| Migrations.TransactionsCanFail | internal/store/postgres/migrate.go:108-124 | A transaction can fail at any point; it then returns an error, frees the lock, and leaves scripts and records as they were |
| MigrationRunner.Runner.Migrate | internal/store/postgres/migrate.go:51-68 | One process: succeeds with the whole list applied, or stops at the first script with a fault, everything before it applied |
| MigrationRunner.Runner.ApplyMigration | internal/store/postgres/migrate.go:108-124 | Script and record are both there or both absent, whatever stage fails |
| MigrationRunner.Runner.ApplyWithinTx | internal/store/postgres/migrate.go:127-160 | Skips a recorded script; otherwise runs and records it |
| EmbedCache.CachingEmbedder.Embed | cmd/eval/embedcache.go:105-123 | The imperative call has exactly the specified result, files and counters |
| EmbedCache.CachingEmbedder.FromCache | cmd/eval/embedcache.go:134-153 | Fills what the files hold, counts it, and reports the other positions in order |
| EmbedCache.CachingEmbedder.Fill | cmd/eval/embedcache.go:156-185 | Asks for the missing texts in one call and writes each vector before it takes it |
| EmbedCache.CachingEmbedder.Store | cmd/eval/embedcache.go:233-254 | Writes the little-endian bytes under the key; refuses a vector of another dimension; a cut-short write leaves a prefix |
| CacheLaws.KeysAreDistinct | cmd/eval/embedcache.go:187-197 | With ids and kinds free of NUL, different (id, kind, text) have different keys, whatever the text holds |
| CacheLaws.NulInAnIdCollides | cmd/eval/embedcache.go:187-197 | An id that holds a NUL shares a key with another id, for every kind and text |
| CacheLaws.LoadIsExact | cmd/eval/embedcache.go:214-227 | What is loaded from a complete or truncated file is the model's vector or nothing |
| CacheLaws.CallKeepsGood | cmd/eval/embedcache.go:156-185 | A call, failing or not, leaves only files that hold a prefix of the right bytes |
| CacheLaws.CacheIsTransparent | cmd/eval/embedcache.go:105-123 | After every history of calls by any embedders and of damage to files, a successful call returns what its embedder would, in order, and queries bypass the cache |
| CacheLaws.SecondCallIsAllHits | cmd/eval/embedcache.go:134-185 | Repeating a successful call asks the embedder for nothing |
| CacheLaws.CallCounts | cmd/eval/embedcache.go:134-185 | A successful call counts each text once; a failed one counts none exactly if it loaded none and stored none |
| CacheLaws.CountersMatch | cmd/eval/embedcache.go:98-102 | Hits plus misses are at least the document texts served, and equal to them if and only if no failed call had loaded or stored anything |
| CacheLaws.FailedCallStillCounts | cmd/eval/embedcache.go:134-166 | The equality does fail: a history with two hits and misses counted and one text served |
| CacheOutcomes.MissingAreAsked | cmd/eval/embedcache.go:134-153 | A call asks the embedder for exactly the texts without a file of the right length, in the order of the call |
| CacheOutcomes.CallSucceedsExactly | cmd/eval/embedcache.go:105-185 | A document call succeeds if and only if all is cached, or the embedder answers each text asked and every answer is stored; what was cached counts as a hit, the rest as misses |
| CacheOutcomes.CallReports | cmd/eval/embedcache.go:156-185 | A failed call reports the embedder's failure, the wrong count, or the first vector of a wrong size or unwritten, and has counted what was cached and stored before |
| CacheOutcomes.SuccessWrites | cmd/eval/embedcache.go:233-254 | After a successful call each text that was asked for has its bytes in its file, and no other file has changed |
| CacheOutcomes.FailureWrites | cmd/eval/embedcache.go:233-254 | A failed call leaves the files it counted as misses, at most the front of one more, and no other change |
| CacheOutcomes.QueriesPassThrough | cmd/eval/embedcache.go:105-113 | A query gets the embedder's answer or failure as it is; no file is touched and nothing is counted |
| Wikitext.StripNested | tools/wikidistract/wikitext.go:117-139 | The loop returns exactly the characters outside every region, in order |
| Wikitext.TokensSpell | tools/wikidistract/wikitext.go:117-139 | The scan reads the whole text: its tokens spell it |
| Wikitext.NothingToStrip | tools/wikidistract/wikitext.go:117-139 | Text without an opening is left as it is |
| Wikitext.TemplatesAreGone | tools/wikidistract/wikitext.go:97-97 | After templates are stripped no "{{" is left, and stripping again changes nothing |
| Wikitext.OpeningsGoneExactly | tools/wikidistract/wikitext.go:117-139 | For two-character delimiters no opening is ever left if and only if its characters are equal or it is also the closing |
| Wikitext.TablesCanRemain | tools/wikidistract/wikitext.go:96-96 | For tables it fails: a text that strips to the opening of a table, and stripping that changes it again |
| Wikitext.UnclosedTakesTheRest | tools/wikidistract/wikitext.go:109-139 | An opening that is never closed takes the rest of the text with it |
| WikiLinks.MatchNested | tools/wikidistract/wikitext.go:174-195 | The loop finds the contents and the end of the region an opening begins, or that it is never closed |
| WikiLinks.LinkIsShortestRegion | tools/wikidistract/wikitext.go:171-195 | That region is the shortest one in which everything opened is closed again |
| WikiLinks.ExpandLinks | tools/wikidistract/wikitext.go:146-169 | The loop and its recursion on the contents compute the expansion, and terminate |
| WikiLinks.NothingToExpand | tools/wikidistract/wikitext.go:146-169 | Text without "[[" is left as it is |
| WikiLinks.AfterLastPipe | tools/wikidistract/wikitext.go:206-211 | What a link displays is the part behind the last pipe, or all of it |
| WikiLinks.LinkShows | tools/wikidistract/wikitext.go:79-212 | A link shows nothing when, after colons and blanks, it begins with one of the eight media prefixes in any case, and else what stands behind its last pipe |
| WikiLinks.UnclosedLinkEnds | tools/wikidistract/wikitext.go:141-169 | A link that is never closed ends the text |
| WikiLinks.StripRendered | tools/wikidistract/wikitext.go:109-139 | On properly nested markup of any depth, stripping leaves exactly the text that is in no group |
| WikiLinks.ExpandRendered | tools/wikidistract/wikitext.go:141-169 | On properly nested links, each link becomes what its expanded contents display, media links nothing |
| Metrics.RecallAt | internal/eval/metrics.go:33-52 | The loop computes the share of relevant keys among the first k |
| Metrics.RankOf | internal/eval/metrics.go:88-96 | The 1-based position of the first occurrence, or none |
| Metrics.FirstRelevantRank | internal/eval/metrics.go:72-82 | The 1-based position of the first relevant result, or none |
| Metrics.ReciprocalRank | internal/eval/metrics.go:54-66 | The reciprocal of that position, 0 when nothing relevant was returned |
| Metrics.WithinMeansInTop | internal/eval/micro.go:27-29 | A key ranks within the cutoff if and only if it is among the first `cutoff` results |
| Metrics.RecallIsMonotone | internal/eval/metrics.go:33-52 | recall@k does not decrease in k and stays in [0, 1] |
| Metrics.RecallIsCapped | internal/eval/metrics.go:27-29 | recall@k is at most k over the number of relevant keys, so below 1 when there are more than k |
| Metrics.ReciprocalMeetsRecall | internal/eval/metrics.go:54-66 | The reciprocal rank reaches 1/k if and only if recall@k is positive |
| Metrics.NewQueryReport | internal/eval/run.go:698-723 | The report carries the query, the ranking and the latencies over, and adds the recall of every k, the rank of every relevant key and the reciprocal rank |
| MeasureLaws.ReportMeans | internal/eval/run.go:698-723 | The report holds query, ranking and latencies as they came, recall@1, @5 and @10, and every relevant key with its first position |
| MeasureLaws.RecallCounts | internal/eval/metrics.go:33-52 | recall@k times the number of relevant keys is how many of them are among the first k results |
| MeasureLaws.ReciprocalMeans | internal/eval/metrics.go:54-82 | The reciprocal rank times the first relevant position is 1 |
| MicroRecall.SummarizeMicro | internal/eval/micro.go:45-61 | The nested loops count all relevant keys and those within the cutoff |
| MicroRecall.SummarizeGoldLength | internal/eval/micro.go:69-103 | Each key is counted in the bucket its length belongs to |
| MicroRecall.SummarizeLongChunks | internal/eval/micro.go:110-141 | The named chunks are counted one by one and together |
| MicroRecall.BucketsAddUp | internal/eval/micro.go:69-103 | The short and the long bucket add up to the micro hits and totals |
| MicroRecall.TrackedAddUp | internal/eval/micro.go:110-141 | The named chunks add up to their sum, which is part of the micro counts |
| MeasureLaws.MicroCounts | internal/eval/micro.go:45-61 | The micro hits are the relevant keys ranked among the first ten, and the value is their share of all |
| MeasureLaws.BucketsCount | internal/eval/micro.go:69-103 | The buckets count the keys of passages of at most and of more than 520 runes, unknown ones as short, and those ranked among the first ten |
| MeasureLaws.BucketShare | internal/eval/micro.go:69-103 | The value of a bucket is its hits over its total, 0 when it is empty |
| MeasureLaws.TrackedCount | internal/eval/micro.go:110-141 | Each of the three named chunks is counted under its own key |
| MicroRecall.MicroIsWeightedRecall | internal/eval/micro.go:45-61 | Over every set of queries, the sum of the number of relevant keys times recall@10 is the number of micro hits |
| MicroRecall.Mean | internal/eval/metrics.go:126-137 | The loop computes the mean, and 0 for no values |
| MicroRecall.MeanRecall | internal/eval/run.go:744-759 | For every k the mean of the reported recalls, in the order of the k |
| MicroRecall.MeanReciprocalRank | internal/eval/run.go:772-779 | The mean of the reported reciprocal ranks |
| MicroRecall.MeanRecallIsMonotone | internal/eval/run.go:744-759 | Mean recall does not decrease in k and stays in [0, 1] |
| MicroRecall.MacroMeetsMicro | internal/eval/run.go:744-759 | When every query has the same number of relevant keys, mean recall@10 and micro recall are equal |
| Percentiles.Percentile | internal/eval/metrics.go:105-123 | Returns the sample of the nearest rank, and 0 for no samples |
| Percentiles.PercentileCoversShare | internal/eval/metrics.go:98-123 | At least p% of the samples are at or below the result and fewer than p% below it, if and only if 0 < p <= 100; and then no other sample has that property |
| Percentiles.PercentilesAreOrdered | internal/eval/metrics.go:105-123 | A higher percentile is never smaller |
| Percentiles.PercentileEnds | internal/eval/metrics.go:113-120 | Outside the range the smallest or largest sample is returned |
| MeasureLaws.PercentileMeans | internal/eval/metrics.go:98-123 | For 0 < p <= 100 at least p/100 of the number of samples lie at or below the result and fewer below it |
| Labels.KeyIsInjective | internal/eval/distractor.go:47-49 | Two distractors share a label if and only if they share document and chunk index |
| Labels.KeyReads | internal/eval/distractor.go:47-49 | The label is the prefix, the document number, a hash sign and the chunk index, the numbers in decimal without leading zeros |
| Labels.LoadDistractors | internal/eval/distractor.go:57-110 | Accepts exactly complete lines with pairwise distinct places; otherwise names the first line at fault |
| Labels.LoadPassages | internal/eval/dataset.go:102-131 | Accepts exactly complete passages with pairwise distinct keys; otherwise names the first line at fault |
| Labels.KeyPrefixConflict | internal/eval/distractor.go:186-195 | Finds the first corpus key with the reserved prefix, if there is one |
| Labels.RecordMismatch | internal/eval/distractor.go:166-180 | The record is accepted exactly if it is absent for no distractors and holds their number otherwise |
| Corpus.ToChunks | internal/eval/run.go:439-471 | The loop numbers sources in first-seen order and chunks inside a source from 0 |
| Corpus.DocumentsAreSources | internal/eval/run.go:434-453 | Document numbers are equal if and only if the sources are |
| Corpus.DocumentsAreDense | internal/eval/run.go:434-453 | The numbers in use are exactly 1 up to the number of sources |
| Corpus.NumbersFollowFirstSight | internal/eval/run.go:434-453 | A passage gets the next number exactly if its source is new |
| Corpus.PlacesAreDistinct | internal/eval/run.go:455-468 | No two chunks share document number and chunk index |
| Corpus.ChunkHolds | internal/eval/run.go:455-471 | A chunk holds its passage's content under the org without any id, at the index of its passage among those of its source |
| Measurement.Runner.Ingest | internal/eval/run.go:405-432 | Hands the corpus over as one batch; succeeds exactly if it gets one id per passage, all different, and then the map sends each id to the key at its place; otherwise the error says which of these failed |
| Measurement.Runner.IngestDistractors | internal/eval/run.go:315-327 | Hands the batches over in order up to the first error, reports that error, and otherwise has added the label of every distractor |
| Measurement.Runner.PutDistractors | internal/eval/run.go:330-352 | Adds the labels of one batch, or reports the failed call, the wrong count, or the first id that was given out before |
| Measurement.Runner.Load | internal/eval/run.go:210-230 | The checks and both loads in order: result, error and the batches handed over are those of the steps up to the first that fails, and on success the map labels the ids in order |
| Measurement.HandOver | internal/eval/run.go:315-327 | What the writer is given is a prefix of the batches, and all of them on success |
| Measurement.LoadSucceedsExactly | internal/eval/run.go:210-230 | Loading succeeds if and only if the record fits, no key is reserved, there is a corpus, every batch gets as many ids as it has chunks, and no id comes twice; the ids are then the writer's, in order |
| Measurement.BatchesCover | internal/eval/run.go:315-327 | The batches hold every distractor once, in order; none is empty and all but the last hold 1000 |
| Measurement.LoadReports | internal/eval/run.go:210-432 | Which error a failing load reports, what it says, and that all batches before the one at fault were answered |
| Measurement.LabelsIdentifyRows | internal/eval/run.go:398-432 | With distinct labels the map is injective and covers every label |
| Measurement.AllLabelsAreDistinct | internal/eval/distractor.go:182-195 | Accepted corpus keys and accepted distractors never share a label |
| StoredCorpus.IdsLeadToTheirChunks | internal/eval/run.go:398-432 | Against the store: over any number of batches the ids are new and distinct, in the order of the chunks, and each leads to the row that holds its chunk |
| StoredCorpus.RankedKeys | internal/eval/run.go:644-663 | Translates results to labels in order; fails exactly for an id without a label |
| StoredCorpus.LoadsIntoStoreExactly | internal/eval/run.go:405-432 | With a store behind the writer, loading fails for no other reason than its input or a failing Put: counts are always right and no id comes twice |
| StoredCorpus.LoadIntoStore | internal/eval/run.go:210-230 | Loading into a store in which the org has no rows yet succeeds if and only if the input is accepted and every Put succeeds, and then its map labels every result of every later search of the org |
| StoredCorpus.LoadedRows | internal/eval/run.go:360-388 | After the load the i-th passage's content is under the i-th id, and each distractor under its own with its document, source, index and content |
| StoredCorpus.EveryResultHasALabel | internal/eval/run.go:637-663 | Every result then carries the label of the very passage or distractor whose chunk its row holds, in all modes and fusions |

## Left out

- Rounding of floating-point scores, norms, alpha and percentile ranks: all of them are exact reals here.
- The SQL engines, the HNSW index (the vector stage is an exact top-K), query plans and session settings.
- The values of `ts_rank` and of bm25. They are any scores that meet the premises; bm25 depends on the whole
  index, so nothing is said about what other orgs do to SQLite's lexical scores.
- Postgres `Put` running at the same time in several processes: its check and its inserts are not under one
  lock, so the single identity is claimed for serial calls there and for interleaved ones in SQLite only.
- Which number a new row gets, beyond being larger than all before: sequences may leave gaps.
- Commits whose outcome the SQLite client cannot know.
- The table definitions and the full-text triggers, beyond the uniqueness of ids and of (org, external id)
  pairs and the check that a chunk index is not negative.
- Unicode tables, NFKC and lower-casing before tokenizing, and the kagome dictionary: runes come with their
  class, and the analyser is an arbitrary function.
- The regular expressions, quotes and entities of `PlainText` around the two nested passes.
- Letters whose lower case cannot occur in a media prefix: only A to Z and the dotted capital I are lowered
  before the prefix is compared.
- Hash collisions of cache keys, files damaged other than by truncation or removal, and calls of one cache
  object running in parallel.
- Decoding of JSON lines, report formatting, latency and tag summaries, warm-up and the repeated rounds.
- HTTP, authentication, configuration, health checks, the command line and the Ollama client.
- `New`, `validateIdentity` and `validateRanking`: single checks of one field each.
- Progress: that a process waiting for a lock ever gets it.
