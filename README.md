# CUAD ingestion and prompt assembly, modelled in Dafny

This project models two parts of a retrieval-augmented question-answering
service over the CUAD contract corpus:

- **Ingestion** (`src/ingestion/json_loader.py`). `chunk_text` cuts a text
  into overlapping windows of `chunk_size` characters that start
  `chunk_size - overlap` apart. The defaults are 800 and 200.
  `ingest_cuad_documents` walks the parsed corpus document by document and
  paragraph by paragraph. It strips each context and skips blank ones. It
  chunks the rest and emits one flat record per chunk, carrying the source
  "CUAD", the three enumeration positions and the contract title.
- **Prompt assembly** (`src/llm/qa_chain.py`). `build_prompt` joins the
  retrieved contexts with blank lines, fills a fixed template and strips it.
  `generate_answer` takes the texts of the retrieved records, calls the
  text generator once and strips the first generated text.

Files:

- `wrappers.dfy` holds `Option`.
- `text.dfy` (module `Text`) holds Python's `str.strip` and `str.join` and the
  decimal rendering of `f"Contract-{id}"`.
- `json_loader.dfy` (module `JsonLoader`) holds chunking and ingestion. Both
  are imperative in the source, so they are `method`s with loops. Each method
  is proved equal to a specification function, and the lemmas are about those
  functions.
- `qa_chain.dfy` (module `QaChain`) holds the prompt and the answer. Both are
  pure functions in the source. The generator is a function parameter.

Two behaviours of the code differ from what a reader might expect; the model follows the code:

- **Short paragraphs.** A paragraph shorter than the chunk size might be
  expected to give exactly one chunk. The code's loop runs while
  `start < length`, so any text longer than the step (600 characters) gives
  a second chunk. For example, a 700-character text gives `text[0:700]` and
  then `text[600:700]`; `SevenHundredCharactersGiveTwoChunks` proves this.
  One chunk comes out exactly when `0 < len <= 600` (`SingleChunk`).
- **Bad settings.** Settings with `overlap >= chunk_size` might be expected
  to be rejected up front. The code does not check them: on a non-empty text
  the loop never ends.
  `ChunkLoopDiverges` and `ChunkLoopHaltsIff` state this. The method
  `ChunkText` therefore requires that the loop terminates.

## Model

| member | source | states |
|---|---|---|
| Text.IsSpace | src/ingestion/json_loader.py:51 | Python's whitespace test: among printable ASCII only the space is whitespace, and no whitespace character lies above U+3000 |
| Text.TrimStart | src/ingestion/json_loader.py:51 | the leading trim is no longer than the input and does not start with whitespace |
| Text.TrimEnd | src/ingestion/json_loader.py:51 | the trailing trim is no longer than the input, keeps the first character and does not end with whitespace |
| Text.Strip | src/ingestion/json_loader.py:51 | the result is no longer than the input and neither starts nor ends with whitespace |
| Text.StripDropsSpace | src/ingestion/json_loader.py:51 | `strip` removes only whitespace: the input is whitespace + result + whitespace |
| Text.StripPadded | src/llm/qa_chain.py:24-36 | stripping `before + x + after` returns `x` when the pads are whitespace and `x` is non-empty and already stripped |
| Text.TrimStartDropsSpace | src/ingestion/json_loader.py:51 | the leading trim drops a whitespace prefix and keeps the rest as a suffix of the input |
| Text.TrimEndDropsSpace | src/ingestion/json_loader.py:51 | the trailing trim drops a whitespace suffix and keeps the rest as a prefix of the input |
| Text.TrimStartPadded | src/llm/qa_chain.py:24-36 | a whitespace prefix before a text that starts with a non-space is removed exactly |
| Text.TrimEndPadded | src/llm/qa_chain.py:24-36 | a whitespace suffix after a text that ends with a non-space is removed exactly |
| Text.Join | src/llm/qa_chain.py:22 | `sep.join(parts)`: the parts in order with the separator between neighbours; its length and its front are stated by `JoinLength` and `JoinFront` |
| Text.JoinFront | src/llm/qa_chain.py:22 | the joined block is the first context, the separator, then the join of the rest, in the given order |
| Text.JoinLength | src/llm/qa_chain.py:22 | the block's length is the sum of the parts' lengths plus one separator per neighbouring pair |
| Text.DecimalString | src/ingestion/json_loader.py:48 | the rendering of a number is non-empty, all digits, without a leading zero |
| Text.DecimalRoundTrip | src/ingestion/json_loader.py:48 | reading the decimal rendering back gives the number |
| JsonLoader.SliceBound | src/ingestion/json_loader.py:34 | a slice bound is clamped into `[0, len]` and kept when already inside |
| JsonLoader.Slice | src/ingestion/json_loader.py:34 | a Python slice is never longer than the string |
| JsonLoader.SliceInside | src/ingestion/json_loader.py:34 | a slice starting inside the text ends at `min(end, len)` |
| JsonLoader.Chunk | src/ingestion/json_loader.py:33-34 | window `i` of the loop is no longer than the text and, for a non-negative `chunk_size`, no longer than `chunk_size` |
| JsonLoader.Chunks | src/ingestion/json_loader.py:32-35 | the list of windows the loop emits; it is empty exactly when the text is empty |
| JsonLoader.ChunkLoop | src/ingestion/json_loader.py:32-35 | the loop run from `start` with bounded iterations; when it finishes, it emits nothing exactly when `start` is already at or past the end |
| JsonLoader.ChunkCountBounds | src/ingestion/json_loader.py:32-35 | for a non-empty text the iteration count `c` is at least 1 and `(c-1)*step < len <= c*step` (the ceiling of `len/step`) |
| JsonLoader.ChunkCountUnique | src/ingestion/json_loader.py:32-35 | the ceiling is the only count with that property |
| JsonLoader.ChunkText | src/ingestion/json_loader.py:23-37 | the loop returns exactly the windows `Chunks`, `ceil(len/step)` of them, and `[]` for empty text |
| JsonLoader.ChunkLoopDiverges | src/ingestion/json_loader.py:32-35 | with `overlap >= chunk_size` and a non-empty text, no number of iterations ends the loop |
| JsonLoader.ChunkLoopCons | src/ingestion/json_loader.py:32-35 | one iteration emits the window at `start` and continues from `start + step` |
| JsonLoader.ChunkLoopFrom | src/ingestion/json_loader.py:32-35 | from window `k`, the remaining iterations emit the remaining windows |
| JsonLoader.ChunkLoopHaltsIff | src/ingestion/json_loader.py:23-37 | the loop ends iff the text is empty or `overlap < chunk_size`, and then returns `Chunks` after `ceil(len/step)` iterations |
| JsonLoader.ChunkIsWindow | src/ingestion/json_loader.py:33-34 | chunk `i` is `text[i*step : min(i*step + chunk_size, len)]`, starts inside the text and is at most `chunk_size` long |
| JsonLoader.ChunksCover | src/ingestion/json_loader.py:32-35 | with `0 <= overlap < chunk_size` every character lies in some chunk at its own offset |
| JsonLoader.LastChunkIsSuffix | src/ingestion/json_loader.py:32-35 | the last chunk runs from its start to the end of the text |
| JsonLoader.SingleChunk | src/ingestion/json_loader.py:32-35 | a non-empty text gives one chunk iff it is no longer than the step, and that chunk is the whole text |
| JsonLoader.SevenHundredCharactersGiveTwoChunks | src/ingestion/json_loader.py:23-37 | with the defaults a 700-character text gives `[text, text[600:]]` |
| JsonLoader.ContractTitle | src/ingestion/json_loader.py:48 | a missing title becomes "Contract-" followed by decimal digits without a leading zero |
| JsonLoader.ContractTitleCases | src/ingestion/json_loader.py:48 | a present title is kept; a missing one is "Contract-" followed by digits, with no leading zero, that read back as the document position |
| JsonLoader.StrippedContext | src/ingestion/json_loader.py:51 | the paragraph's context stripped, no longer than the context, and empty when the context is missing |
| JsonLoader.ParagraphChunks | src/ingestion/json_loader.py:51-55 | a paragraph has no chunks exactly when its stripped context is blank |
| JsonLoader.FlattenDocument | src/ingestion/json_loader.py:50-67 | the records the paragraph loop appends for one document: each paragraph's chunk records, numbered by paragraph position, in paragraph order |
| JsonLoader.FlattenCorpus | src/ingestion/json_loader.py:47-67 | the records the document loop appends: each document's records, numbered by document position, in document order |
| JsonLoader.Titles | src/ingestion/json_loader.py:48 | the contract title of every document, one per document, by position |
| JsonLoader.ChunkRecords | src/ingestion/json_loader.py:57-67 | one record per chunk, strictly ordered by chunk number |
| JsonLoader.Ingest | src/ingestion/json_loader.py:43-69 | the flat record list of the corpus; it has as many records as all paragraphs have chunks |
| JsonLoader.ParagraphChunkCount | src/ingestion/json_loader.py:51-55 | a paragraph contributes `ceil(len/600)` chunks of its stripped context, none when it is blank |
| JsonLoader.ChunkParagraph | src/ingestion/json_loader.py:51-55 | stripping and chunking one paragraph yields its chunk list, empty for a blank context |
| JsonLoader.AppendChunkRecords | src/ingestion/json_loader.py:57-67 | the inner loop appends one record per chunk, numbered by position, after the existing records |
| JsonLoader.FlattenDocumentAppend | src/ingestion/json_loader.py:50-67 | one more paragraph appends that paragraph's records to the document's |
| JsonLoader.DocumentStep | src/ingestion/json_loader.py:50-67 | one paragraph iteration keeps the loop invariant of the paragraph loop |
| JsonLoader.AppendDocumentRecords | src/ingestion/json_loader.py:50-67 | the paragraph loop appends exactly the document's records, in paragraph order |
| JsonLoader.FlattenCorpusStep | src/ingestion/json_loader.py:47-67 | one more document appends that document's records |
| JsonLoader.IngestCuadDocuments | src/ingestion/json_loader.py:43-69 | the nested loops return exactly `Ingest(corpus)`, with as many records as chunks |
| JsonLoader.FlatDocumentCount | src/ingestion/json_loader.py:50-67 | a document has as many records as its paragraphs have chunks |
| JsonLoader.FlatCorpusCount | src/ingestion/json_loader.py:47-67 | the corpus has as many records as all its paragraphs have chunks |
| JsonLoader.OrderedAppend | src/ingestion/json_loader.py:58 | appending a later block of ordered records keeps the order |
| JsonLoader.FlatDocumentOrdered | src/ingestion/json_loader.py:50-66 | a document's records carry its number and are ordered by paragraph, then chunk |
| JsonLoader.FlatCorpusOrdered | src/ingestion/json_loader.py:47-66 | the records carry contract numbers below the corpus size and are ordered |
| JsonLoader.IngestOrdered | src/ingestion/json_loader.py:47-66 | records are strictly ordered by `(contract_id, paragraph_id, chunk_id)`, so those triples are unique |
| JsonLoader.FlatDocumentSound | src/ingestion/json_loader.py:57-67 | every record of a document is the record of an existing chunk at its own ids |
| JsonLoader.FlatCorpusSound | src/ingestion/json_loader.py:47-67 | every record of the corpus is the record of an existing chunk at its own ids |
| JsonLoader.FlatDocumentComplete | src/ingestion/json_loader.py:57-67 | every chunk of a document has its record |
| JsonLoader.FlatCorpusComplete | src/ingestion/json_loader.py:47-67 | every chunk of the corpus has its record |
| JsonLoader.SlotRecord | src/ingestion/json_loader.py:58-66 | the record of chunk `k` of paragraph `p` of document `c`: that chunk's text, source "CUAD", the three ids and the document's title |
| JsonLoader.IngestSound | src/ingestion/json_loader.py:47-67 | every record is chunk `chunk_id` of paragraph `paragraph_id` of document `contract_id`, with source "CUAD" and the document's title (or "Contract-<id>") |
| JsonLoader.IngestComplete | src/ingestion/json_loader.py:47-67 | every chunk of every non-blank paragraph appears as a record |
| JsonLoader.BlankParagraphLeavesGap | src/ingestion/json_loader.py:50-53 | a blank paragraph has no record, so paragraph ids have a gap there |
| JsonLoader.SingleParagraphExample | src/ingestion/json_loader.py:43-69 | one untitled document with one short paragraph gives one record with ids 0/0/0 and title "Contract-0" |
| QaChain.Body | src/llm/qa_chain.py:25-34 | the template's lines with the context block and the query filled in, without its outer whitespace |
| QaChain.Template | src/llm/qa_chain.py:24-35 | the f-string: a newline and the 12-space indent, the body, then a newline and the indent |
| QaChain.BuildPrompt | src/llm/qa_chain.py:21-36 | the prompt neither starts nor ends with whitespace |
| QaChain.PreambleFacts | src/llm/qa_chain.py:25-26 | the template's fixed head starts with the instruction and holds the sentinel line at a fixed offset |
| QaChain.ClosingFacts | src/llm/qa_chain.py:34 | the template's fixed tail ends with "Answer:" |
| QaChain.PromptShape | src/llm/qa_chain.py:21-36 | the prompt is fixed text + joined contexts + fixed text + query + fixed text, whatever the contexts and query hold |
| QaChain.PromptFrame | src/llm/qa_chain.py:24-36 | every prompt starts with the instruction, holds the sentinel line and ends with "Answer:" |
| QaChain.PromptWithoutContexts | src/llm/qa_chain.py:21-36 | with no contexts the prompt is still produced, with an empty block and the sentinel line |
| QaChain.Texts | src/llm/qa_chain.py:39 | the contexts are the records' texts, one per record, in the given order |
| QaChain.GenerateAnswer | src/llm/qa_chain.py:38-43 | an answer, when there is one, neither starts nor ends with whitespace |
| QaChain.AnswerShape | src/llm/qa_chain.py:38-43 | the answer is the stripped first output of the generator on the prompt built from the texts; no answer when the generator returns nothing; the answer is stripped |
| QaChain.AnswerIgnoresMetadata | src/llm/qa_chain.py:38-40 | records with equal texts in equal order give equal answers: metadata and score never reach the generator |

## Left out

- `load_cuad_json` (file lookup and JSON decoding) is not modelled. The corpus arrives as a sequence of `Document` values.
- A missing "data" or "paragraphs" key reads as an empty sequence, and a missing "context" as `None`. JSON values of other types, such as a `null` context or title, are not modelled.
- `str.isspace` is the fixed list of code points Python treats as whitespace. Dafny characters are Unicode scalar values, so characters above U+FFFF are covered, but a lone surrogate, which a Python `str` can hold, cannot be represented.
- JsonLoader.ChunkText: requires `overlap < chunk_size` for a non-empty text, because the source loop never returns otherwise. That behaviour is stated on `ChunkLoop` by `ChunkLoopDiverges` and `ChunkLoopHaltsIff`.
- QaChain.AnswerShape: the generator is a pure function of the prompt, so the model cannot count calls. One call shows only as one application in `GenerateAnswer`.
- `RAGQAChain.__init__` (model and tokenizer loading, `max_new_tokens`) is not modelled. The pipeline is the `generate` parameter, returning the list of generated texts.
- Generator failures other than an empty output list are not modelled.
- The similarity score is a `real`. Floating-point behaviour is not modelled, and the score only travels with the record.
- `src/retrieval/vector_store.py`, `src/embeddings/embedding_generator.py`, `src/api/app.py` and `main.py` are not part of this model.
