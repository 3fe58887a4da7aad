# VisioLingua backend core in Dafny

VisioLingua is a multilingual retrieval service. Users upload images or
text. Each upload is embedded into two vector spaces and stored as a point
in a Qdrant collection. Users then query their own content in any
language, get a generated description, generate stories grounded in their
uploads, and list their upload history.

This project models the decision logic of the Python backend.

| module | models |
|---|---|
| `TextClean` | The upload text normaliser. |
| `Upload` | The `/upload` dispatch: the file/text and image/text-file branches, the fallback zero vectors, the payload, and the error codes. |
| `VectorStore` | The collection set-up, point lookup, and the paged listing of a user's points. |
| `Retrieval` | The hit merge, the ranking, and the copy-and-translate step shared by `/query` and `/query-image`. |
| `Query` | The two query handlers: generation source, `cosine_avg` and `bleu_score`. |
| `Api` | The token check, `/generate-story` and `/history`. |
| `Translate` | The translation fallback policy. |
| `HybridSearch` | The BM25 tokeniser, query expansion, and the tokenised corpus. |
| `CharRuns` | The maximal runs of one character class, shared by the tokeniser and `split()`. |
| `Sorting` | A stable insertion sort. It stands for Python's `sorted`/`list.sort` with a key. |

The embedders, the captioner and generators, image detection, base64, the
Qdrant client and the translation pipelines are oracles: function values
carried in an environment datatype. An oracle returns `None` when the call
raises. Uncaught exceptions become a 500 "Internal Server Error" response.
Fresh ids, the current time and the measured latency are parameters.
Payloads are records with one optional field per stored key. Scores are
reals.

## Model

| member | source | states |
|---|---|---|
| TextClean.BreaksToSpaces | backend/routers/upload.py:20 | Each `\r` and `\n` becomes a space, every other character is unchanged, and the length is kept. |
| TextClean.Strip | backend/routers/upload.py:20 | The result is the slice of the input between its leading and its trailing whitespace: everything dropped is Python whitespace, and neither end of the result is whitespace. |
| TextClean.ReplaceDoubleSpaces | backend/routers/upload.py:23 | One `replace("  ", " ")` never lengthens the text and strictly shortens it while a double space remains, so the collapse loop terminates. |
| TextClean.CleanText | backend/routers/upload.py:18-24 | The `while "  " in s` loop computes `Cleaned`, i.e. the collapse of the stripped, break-free text. |
| TextClean.CollapseNoDoubleSpace | backend/routers/upload.py:22-23 | The collapsed text never has two consecutive spaces. |
| TextClean.ReplaceKeepsCollapse | backend/routers/upload.py:22-23 | Each loop round leaves the final collapse unchanged; this is the loop invariant. |
| TextClean.CleanedShape | backend/routers/upload.py:18-24 | The cleaned text has no `\r`/`\n`, no double space, and no whitespace at either end. |
| TextClean.CleanedEmpty | backend/routers/upload.py:20 | `None` and `""` both clean to `""`. |
| TextClean.CleanedIdempotent | backend/routers/upload.py:18-24 | Cleaning a cleaned text changes nothing. |
| Upload.OriginalName | backend/routers/upload.py:91 | The filename when it is present and non-empty, otherwise "uploaded". |
| Upload.ClipTextVector | backend/routers/upload.py:103-109 | The CLIP text embedding when enabled and it succeeds; 512 zeros when disabled or when it raises. |
| Upload.TextVector | backend/routers/upload.py:110-113 | The multilingual embedding when it succeeds; 384 zeros when it raises. |
| Upload.BasePayload | backend/routers/upload.py:43 | The payload starts with exactly the user, the language and the timestamp. |
| Upload.ImageBranch | backend/routers/upload.py:55-95 | An image point has type "image", the raw caption or the failure caption as content, the base64 image, the clip vector (zeros without CLIP), and the multilingual vector of the cleaned caption; an uncaught CLIP image error stores nothing. |
| Upload.TextFileBranch | backend/routers/upload.py:96-120 | A non-image file is decoded and cleaned; the point has type "text", the file name and the cleaned content, with fallback zero vectors. |
| Upload.TextBranch | backend/routers/upload.py:122-141 | Plain text is cleaned; the point has type "text", the cleaned content and no file name. |
| Upload.UploadContent | backend/routers/upload.py:26-167 | Neither file nor text gives 400 and nothing is stored. A file wins over text. Every stored point carries the fresh id, user, language and timestamp, and no score. Image vs text follows image detection. The clip vector is 512 zeros without CLIP. Success returns the point id exactly when the upsert succeeds; an upsert error gives 500 "Vector DB error: …". |
| VectorStore.EnsureCollection | backend/db/vector_store.py:11-27 | The collection is created, with the clip/text vector schema, only when its name is not listed; a client error is only a warning. |
| VectorStore.EnsureCollectionIdempotent | backend/db/vector_store.py:13-25 | After a successful first call, a second call finds the collection and creates nothing. |
| VectorStore.RetrievePoint | backend/db/vector_store.py:41-53 | `None` on a client error or an empty result; otherwise the first point, with its payload defaulting to `{}`. |
| VectorStore.PageRequestSize | backend/db/vector_store.py:75 | Every scroll asks for between 1 and 64 points, and for exactly the remainder when it lies in that range. |
| VectorStore.ListUserPoints | backend/db/vector_store.py:56-101 | The scroll loop returns `ListSpec`: the items collected page by page until the limit is reached or there is no next page, sorted newest first; `[]` on any client error. |
| VectorStore.CollectBound | backend/db/vector_store.py:83-91 | The collected list never exceeds the limit when `limit >= 1`; with `limit <= 0` it holds at most one item, because the limit check runs after the append. |
| VectorStore.ListSpecProperties | backend/db/vector_store.py:75-97 | The listing holds at most `limit` items (at most one for `limit < 1`), only items of the filtered type, in non-increasing timestamp order. |
| VectorStore.ListSpecFirstPageError | backend/db/vector_store.py:99-101 | A client error on the first scroll yields `[]`. |
| VectorStore.NewerOrSameIsTotalPreorder | backend/db/vector_store.py:94-97 | The timestamp key (missing means "") orders items totally, so the stable sort yields a newest-first order. |
| Sorting.SortDesc | backend/db/vector_store.py:97 | The sort returns a permutation of its input. |
| Sorting.SortDescSorted | backend/db/vector_store.py:97 | Under a total preorder, the result is in descending order. |
| Sorting.SortDescStable | backend/routers/query.py:67 | The sort is stable: the elements with any one key come out in the order they went in. |
| Retrieval.Combine | backend/routers/query.py:56-64 | The merge loop over the hits computes `Merged`. |
| Retrieval.MergedIds | backend/routers/query.py:56-64 | After merging, each point id appears at most once. The merged ids are exactly the ids of the requesting user's hits. |
| Retrieval.MergedBest | backend/routers/query.py:58-64 | Every merged entry belongs to the requesting user. Its score is the maximum over that id's hits, with a missing score counting as 0. It is the first hit reaching that maximum. |
| Retrieval.AboveThreshold | backend/routers/query.py:68 | An entry is kept exactly when its score is at least 0.3; kept entries are a sub-multiset. |
| Retrieval.RankedShape | backend/routers/query.py:67-68 | At most 3 entries are kept, each scoring at least 0.3, in non-increasing score order, all taken from the merged entries. |
| Retrieval.RankedKeepsBest | backend/routers/query.py:67-68 | A merged entry scoring at least 0.3 is only dropped when 3 are kept, and every kept entry scores at least as high. |
| Retrieval.RankedOwned | backend/routers/query.py:61-62 | Every kept entry belongs to the requesting user. |
| Retrieval.RelabelledSpec | backend/routers/query.py:72-77 | A result copies the stored payload and sets its score to the merged score. Content and language are translated and relabelled exactly when content, request language and stored language are present and the languages differ; otherwise they are unchanged. |
| Retrieval.ResultsSpec | backend/routers/query.py:56-78 | At most 3 results, all the requesting user's, each carrying its kept entry's score (at least 0.3), in non-increasing score order. |
| Retrieval.RankHits | backend/routers/query.py:56-78 | The merge, rank and copy loops compute `Results`, and return the kept entries. The same rule serves `/query-image` (query.py:138-158). |
| Retrieval.RelabelAll | backend/routers/query.py:70-78 | The copy loop yields one relabelled payload per kept entry, in order. |
| Query.ClipQuery | backend/routers/query.py:33-39 | The CLIP text embedding when enabled and it succeeds; 512 zeros when disabled, and 512 zeros when enabled but the embedder raises. |
| Query.QueryHits | backend/routers/query.py:40-53 | The CLIP hits (none when that search raises) followed by the text hits; no hits when the multilingual embedding or the text search raises. |
| Query.FirstImage | backend/routers/query.py:82-83 | The first result that has type "image" and image data; none comes before it. |
| Query.Contents | backend/routers/query.py:91 | Every kept content is non-empty; none is kept exactly when no result has content. |
| Query.ContentsSpec | backend/routers/query.py:91 | Exactly the present contents, in result order: a result without content adds nothing, one with content adds it, and the contents of a concatenation are those of its parts in turn. |
| Query.JoinLinesEmpty | backend/routers/query.py:91-92 | Joining non-empty contents gives "" only when there are none. |
| Query.TextSourceSpec | backend/routers/query.py:90-92 | The fallback generation describes the query exactly when no result has content; otherwise it describes the newline-joined contents. |
| Query.GenerationPrefersImage | backend/routers/query.py:81-92 | A non-empty description of the first image result is the generation; a failed or empty one falls back to the text source. |
| Query.GenerationWithoutImage | backend/routers/query.py:82-92 | Without an image result, the generation describes the text source. |
| Query.Generate | backend/routers/query.py:81-92 | The generation step computes `Generation`. |
| Query.CosineAvgBounds | backend/routers/query.py:96 | The mean of the scores lies between their lower and upper bounds. |
| Query.CosineAvgOfRanked | backend/routers/query.py:96 | `cosine_avg` is 0 without results; otherwise it lies between 0.3 and the top score. |
| Query.FieldsMaximal | backend/routers/query.py:98-99 | The words of `split()` are exactly the maximal runs of non-whitespace, in order: each is non-empty, sits at its offset between whitespace or the text's ends, the offsets increase, and every non-whitespace character lies in a word. |
| Query.FieldsEmpty | backend/routers/query.py:99-100 | A text splits into no words exactly when it is all whitespace. |
| Query.References | backend/routers/query.py:98 | One reference: the words of the first result's content (`""` when absent), or no words without results. |
| Query.BleuScore | backend/routers/query.py:97-102 | `bleu_score` is 0 when the generation is all whitespace. Otherwise the scorer is called with `References` and the generation's words, and `bleu_score` is its value, or 0 when it raises. |
| Query.QueryContent | backend/routers/query.py:24-115 | The response holds the ranked results of the merged hits, the generation, `cosine_avg`, `bleu_score` and the latency. Any uncaught failure gives 500. |
| Query.ClipImageQuery | backend/routers/query.py:127-133 | The CLIP image embedding when enabled and it succeeds; 512 zeros when disabled, and 512 zeros when enabled but the embedder raises. |
| Query.QueryByImage | backend/routers/query.py:118-171 | The results rank the CLIP hits, and the generation describes the query image with the question. `bleu_score` is always 0. A search or generation error gives 500. |
| Api.VerifyToken | backend/main.py:49-52 | A missing or empty credential is rejected with 401 "Invalid token"; otherwise the credential is returned. |
| Api.FallbackStory | backend/main.py:113-118 | The fallback story opens with `A story inspired by '` followed by the theme; it keeps the request language, is not grounded and names no point. |
| Api.StoryFrom | backend/main.py:93-118 | Without a source, the theme-only prompt is told in narrative style, ungrounded. An image point with image data is told from its decoded image, and any other point from its content (`""` when absent), grounded in that point's id. Any call that raises gives the fallback story. The response language is always the request language. |
| Api.GenerateStory | backend/main.py:67-118 | The source is chosen step by step as `StorySource`: the retrievable explicit point, else the newest of the first 10 image points the pager hands out, else the newest of the first 10 points of any type. The story is then told from it. Only those first 10 points are sorted by timestamp, so when the user has more than 10 image points the chosen one need not be their most recent upload, despite the docstring. |
| Api.ExplicitPointWins | backend/main.py:78-79 | A retrievable requested point grounds the story, whatever its type and whoever owns it: the id is not checked against the requesting user. |
| Api.ImagesBeforeText | backend/main.py:81-85 | Without a retrievable requested point, a user with listed image points gets an image point as source. |
| Api.Project | backend/main.py:131-138 | A history row keeps the id, timestamp and original name; type defaults to "unknown" and language to "en". |
| Api.GetHistory | backend/main.py:126-139 | One row per listed point, in the same order, at most 50, newest first. |
| Translate.LangPair | backend/services/translate.py:19-22 | The code map is the identity on every pair. |
| Translate.ModelName | backend/services/translate.py:34 | The model name is "Helsinki-NLP/opus-mt-", then the source code, a dash, and the target code. |
| Translate.GetTranslator | backend/services/translate.py:25-46 | No pipeline or equal languages give none. The direct model is tried first. The English pivot is tried only when neither side is "en". Every other failure gives none. |
| Translate.Run | backend/services/translate.py:55-64 | A direct translator runs its model; a pivot feeds the first stage's output to the second stage. |
| Translate.TranslateText | backend/services/translate.py:49-66 | The input is returned unchanged when it is empty, when the languages are equal, when no translator exists, or when translation raises. |
| Translate.TranslateOutputOrigin | backend/services/translate.py:49-66 | The output is either the input or a pipeline's output. |
| Translate.NoPipelineIsIdentity | backend/services/translate.py:5-8 | Without the pipeline library, translation is the identity. |
| Translate.PivotComposes | backend/services/translate.py:61-64 | In pivot mode the first stage's output is the second stage's input. |
| HybridSearch.Lower | backend/services/hybrid_search.py:8 | Lower-casing maps each character and keeps the length. |
| HybridSearch.SimpleTokenizeSpec | backend/services/hybrid_search.py:7-8 | Every token is non-empty, lower-case and made of word characters. The tokens concatenate to the word characters of the lowered text. |
| HybridSearch.WordsSpec | backend/services/hybrid_search.py:8 | Each token is a non-empty run of word characters, and the tokens spell out exactly the text's word characters, in order. |
| HybridSearch.WordsMaximal | backend/services/hybrid_search.py:8 | The tokens are exactly the maximal word-character runs, in order: each sits at its offset between non-word characters or the text's ends, the offsets increase, and every word character lies in a token. |
| CharRuns.RunsMaximal | backend/services/hybrid_search.py:8 | `Runs(s, p)` lists the maximal runs of `p`-characters of `s` at strictly increasing offsets, covering every `p`-character; this is what both `re.findall(r"\w+", …)` and `str.split()` compute. |
| HybridSearch.NoWordCharsNoTokens | backend/services/hybrid_search.py:8 | Text without word characters yields no tokens. |
| HybridSearch.WordsSplitAtSpace | backend/services/hybrid_search.py:8 | A space separates tokens: the tokens of `a + " " + b` are those of `a` followed by those of `b`. |
| HybridSearch.ExpandQuery | backend/services/hybrid_search.py:32-36 | The query is returned unchanged when synonyms are None or empty; otherwise it starts the result. |
| HybridSearch.ExpandQueryTokens | backend/services/hybrid_search.py:34-35 | The expanded query tokenises to the query's tokens followed by each synonym's tokens. |
| HybridSearch.HybridSearch.constructor | backend/services/hybrid_search.py:11-14 | The object keeps the corpus and vectors and one token list per document, in corpus order. |

## Left out

- The frontend is not modelled. It is UI over HTTP calls and local storage.
- The embedders and the caption, description and story generators are oracles. The prompt formatting inside the generation service is not modelled.
- The oracles may raise, which covers any embedder or generator. The shipped CLIP embedders (backend/services/embeddings.py:41-43, 54-56) and generators (backend/services/generation.py:30-36, 55-57, 70-72) catch their own errors and return zeros or a failure text. With those services, three modelled paths never happen: the upload's 500 on a CLIP image error, the query handlers' 500 on a generation error, and the story fallback after a generator error.
- The Fernet encryption service (backend/services/encryption.py) is not part of this model: no handler in the core calls it.
- `HybridSearch.search` is not modelled: floating-point cosine, BM25 scoring and argsort. The BM25 index built in `__init__` is not modelled either.
- The trace-file writes, `print` logging, `lru_cache`, asynchrony and the FastAPI wiring are not modelled. Handlers are sequential.
- HTTPBearer answers a missing header with its own 403 before `verify_token` runs. That framework behaviour is not modelled.
- Floats are reals: there is no rounding in scores or in the mean. The latency is a parameter.
- HybridSearch.SimpleTokenizeSpec: `\w` and `lower()` are modelled on ASCII only. Python's Unicode word characters and case mapping are not modelled.
- Payloads are records with a fixed set of keys. A key stored with a non-string value, or a key outside that set, is not modelled. A key holding `None` reads the same as an absent key.
- The upload's "Failed to compute embeddings" 500 check is not modelled. Both upload branches always set the vectors, so that check cannot fire.
- The translation pipelines' `max_length=512` truncation happens inside the oracle.
- VectorStore.ListUserPoints: termination assumes the pager hands out strictly increasing next offsets below a bound. This is what Qdrant's paging of a finite collection does. A pager that revisits an offset, on which the Python loop would spin forever, is not modelled.
- `search` and `upsert_point` in the vector store are one-line client calls. They are the `search` and `upsert` oracles.
