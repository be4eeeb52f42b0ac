/**
  Chunking and flattening of the CUAD corpus (src/ingestion/json_loader.py).
  The corpus arrives already parsed: reading and decoding the JSON file is
  not modelled.
 */
module JsonLoader {
  import opened Wrappers
  import opened Text

  const DefaultChunkSize: int := 800
  const DefaultOverlap: int := 200
  const Source: string := "CUAD"

  // ---------------------------------------------------------------------
  // Python slicing

  /** How Python normalises one bound of `s[lo:hi]` for a string of length `n`:
      a negative bound counts from the end, then the bound is clamped to `[0, n]`. */
  function SliceBound(i: int, n: nat): (j: nat)
    ensures j <= n
    ensures 0 <= i <= n ==> j == i
  {
    if i < 0 then (if n + i < 0 then 0 else n + i) else if i > n then n else i
  }

  /** Python's `s[lo:hi]`. */
  function Slice(s: string, lo: int, hi: int): (r: string)
    ensures |r| <= |s|
  {
    var a, b := SliceBound(lo, |s|), SliceBound(hi, |s|);
    if b <= a then [] else s[a..b]
  }

  function Min(a: int, b: int): int { if a <= b then a else b }

  /** A slice that starts inside the string ends at `hi` or at the end of the string. */
  lemma SliceInside(s: string, lo: int, hi: int)
    requires 0 <= lo < |s| && lo <= hi
    ensures Slice(s, lo, hi) == s[lo..Min(hi, |s|)]
  {
  }

  // ---------------------------------------------------------------------
  // chunk_text

  /** The `while start < length` loop of `chunk_text` ends exactly when the
      text is empty or every iteration moves `start` forward. */
  predicate Terminates(n: nat, chunkSize: int, overlap: int) {
    n == 0 || overlap < chunkSize
  }

  /** The number of iterations of the loop on a text of length `n`:
      the least `count` with `count * step >= n`, i.e. `ceil(n / step)`. */
  function ChunkCount(n: nat, step: int): nat
    requires n == 0 || step >= 1
  {
    if n == 0 then 0 else (n + step - 1) / step
  }

  /** `ChunkCount` is the ceiling of `n / step`. */
  lemma ChunkCountBounds(n: nat, step: int)
    requires n > 0 && step >= 1
    ensures var count := ChunkCount(n, step); count >= 1 && (count - 1) * step < n <= count * step
  {
    var q := (n + step - 1) / step;
    assert q * step + (n + step - 1) % step == n + step - 1;
    assert (q - 1) * step == q * step - step;
  }

  /** The ceiling is the only count with that property. */
  lemma ChunkCountUnique(n: nat, step: int, c: int)
    requires n > 0 && step >= 1
    requires (c - 1) * step < n <= c * step
    ensures c == ChunkCount(n, step)
  {
    var q := ChunkCount(n, step);
    ChunkCountBounds(n, step);
    if c < q {
      MulMonotone(c, q - 1, step);
    } else if c > q {
      MulMonotone(q, c - 1, step);
    }
  }

  lemma MulSucc(n: int, step: int)
    ensures (n + 1) * step == n * step + step
  {
  }

  lemma MulMonotone(a: int, b: int, step: int)
    requires a <= b && step >= 0
    ensures a * step <= b * step
  {
    assert b * step - a * step == (b - a) * step;
  }

  /** The `i`-th window: `text[i*step : i*step + chunkSize]`. */
  function Chunk(text: string, chunkSize: int, overlap: int, i: nat): (window: string)
    requires overlap < chunkSize
    ensures |window| <= |text|
    ensures 0 <= chunkSize ==> |window| <= chunkSize
  {
    var start := i * (chunkSize - overlap);
    MulMonotone(0, i, chunkSize - overlap);
    Slice(text, start, start + chunkSize)
  }

  /** What `chunk_text(text, chunkSize, overlap)` returns: one window per
      iteration of its loop. */
  function Chunks(text: string, chunkSize: int, overlap: int): (chunks: seq<string>)
    requires Terminates(|text|, chunkSize, overlap)
    ensures chunks == [] <==> |text| == 0
  {
    if |text| == 0 then []
    else
      ChunkCountBounds(|text|, chunkSize - overlap);
      seq(ChunkCount(|text|, chunkSize - overlap), i requires 0 <= i => Chunk(text, chunkSize, overlap, i))
  }

  /** `chunk_text`: advance `start` by `chunkSize - overlap` and append
      `text[start:start + chunkSize]` until `start` reaches the length. */
  method ChunkText(text: string, chunkSize: int, overlap: int) returns (chunks: seq<string>)
    requires Terminates(|text|, chunkSize, overlap)
    ensures chunks == Chunks(text, chunkSize, overlap)
    ensures |text| == 0 ==> chunks == []
    ensures |chunks| == ChunkCount(|text|, chunkSize - overlap)
  {
    chunks := [];
    var start := 0;
    var length := |text|;
    while start < length
      invariant 0 <= start
      invariant start == |chunks| * (chunkSize - overlap)
      invariant length == 0 ==> chunks == []
      invariant |chunks| > 0 ==> start - (chunkSize - overlap) < length
      invariant length > 0 ==> forall i :: 0 <= i < |chunks| ==> chunks[i] == Chunk(text, chunkSize, overlap, i)
      decreases length - start
    {
      var end := start + chunkSize;
      ghost var n := |chunks|;
      assert Slice(text, start, end) == Chunk(text, chunkSize, overlap, n);
      chunks := chunks + [Slice(text, start, end)];
      start := start + chunkSize - overlap;
      MulSucc(n, chunkSize - overlap);
    }
    if length > 0 {
      ChunkCountUnique(length, chunkSize - overlap, |chunks|);
    }
  }

  /** The loop of `chunk_text` run for at most `fuel` iterations from
      offset `start`; `None` when the fuel runs out before `start` reaches
      the length of the text. */
  function ChunkLoop(text: string, start: int, chunkSize: int, overlap: int, fuel: nat): (r: Option<seq<string>>)
    ensures r.Some? ==> (r.value == [] <==> start >= |text|)
    decreases fuel
  {
    if start >= |text| then Some([])
    else if fuel == 0 then None
    else match ChunkLoop(text, start + chunkSize - overlap, chunkSize, overlap, fuel - 1)
      case None => None
      case Some(rest) => Some([Slice(text, start, start + chunkSize)] + rest)
  }

  /** With `overlap >= chunkSize` on a non-empty text, `start` never moves
      forward: no number of iterations finishes the loop. */
  lemma {:induction false} ChunkLoopDiverges(text: string, start: int, chunkSize: int, overlap: int, fuel: nat)
    requires start < |text| && overlap >= chunkSize
    ensures ChunkLoop(text, start, chunkSize, overlap, fuel) == None
    decreases fuel
  {
    if fuel > 0 {
      ChunkLoopDiverges(text, start + chunkSize - overlap, chunkSize, overlap, fuel - 1);
    }
  }

  /** One iteration of the loop: the window at `start`, then the rest. */
  lemma ChunkLoopCons(text: string, start: int, chunkSize: int, overlap: int, fuel: nat, rest: seq<string>)
    requires start < |text| && fuel > 0
    requires ChunkLoop(text, start + chunkSize - overlap, chunkSize, overlap, fuel - 1) == Some(rest)
    ensures ChunkLoop(text, start, chunkSize, overlap, fuel) == Some([Slice(text, start, start + chunkSize)] + rest)
  {
  }

  /** Window `k` starts inside the text exactly when `k` is below the count. */
  lemma WindowStart(n: nat, step: int, k: nat)
    requires n > 0 && step >= 1 && k <= ChunkCount(n, step)
    ensures k < ChunkCount(n, step) <==> k * step < n
  {
    var count := ChunkCount(n, step);
    ChunkCountBounds(n, step);
    if k < count {
      MulMonotone(k, count - 1, step);
    }
  }

  /** Element `k` of `Chunks` is window `k`. */
  lemma ChunkAt(text: string, chunkSize: int, overlap: int, k: nat)
    requires overlap < chunkSize && k < |Chunks(text, chunkSize, overlap)|
    ensures Chunks(text, chunkSize, overlap)[k]
            == Slice(text, k * (chunkSize - overlap), k * (chunkSize - overlap) + chunkSize)
  {
  }

  /** From the start of window `k`, `ChunkCount - k` iterations produce the
      remaining windows. */
  lemma {:induction false} ChunkLoopFrom(text: string, chunkSize: int, overlap: int, k: nat, start: int, fuel: nat)
    requires |text| > 0 && overlap < chunkSize
    requires k <= ChunkCount(|text|, chunkSize - overlap) && start == k * (chunkSize - overlap)
    requires fuel >= ChunkCount(|text|, chunkSize - overlap) - k
    ensures ChunkLoop(text, start, chunkSize, overlap, fuel) == Some(Chunks(text, chunkSize, overlap)[k..])
    decreases ChunkCount(|text|, chunkSize - overlap) - k
  {
    var all := Chunks(text, chunkSize, overlap);
    WindowStart(|text|, chunkSize - overlap, k);
    if k == |all| {
      assert all[k..] == [];
    } else {
      var rest := all[k + 1..];
      assert ChunkLoop(text, start + chunkSize - overlap, chunkSize, overlap, fuel - 1) == Some(rest) by {
        MulSucc(k, chunkSize - overlap);
        ChunkLoopFrom(text, chunkSize, overlap, k + 1, start + chunkSize - overlap, fuel - 1);
      }
      ChunkLoopCons(text, start, chunkSize, overlap, fuel, rest);
      assert all[k..] == [Slice(text, start, start + chunkSize)] + rest by {
        ChunkAt(text, chunkSize, overlap, k);
        assert all[k..] == [all[k]] + rest;
      }
    }
  }

  /** `chunk_text` returns if and only if the text is empty or
      `overlap < chunkSize`; when it returns, the result is `Chunks`, after
      `ChunkCount` iterations. */
  lemma ChunkLoopHaltsIff(text: string, chunkSize: int, overlap: int)
    ensures (exists fuel: nat :: ChunkLoop(text, 0, chunkSize, overlap, fuel).Some?)
            <==> Terminates(|text|, chunkSize, overlap)
    ensures Terminates(|text|, chunkSize, overlap) ==>
            ChunkLoop(text, 0, chunkSize, overlap, ChunkCount(|text|, chunkSize - overlap))
            == Some(Chunks(text, chunkSize, overlap))
  {
    if Terminates(|text|, chunkSize, overlap) {
      var count := ChunkCount(|text|, chunkSize - overlap);
      if |text| > 0 {
        ChunkLoopFrom(text, chunkSize, overlap, 0, 0, count);
        assert Chunks(text, chunkSize, overlap)[0..] == Chunks(text, chunkSize, overlap);
      }
      assert ChunkLoop(text, 0, chunkSize, overlap, count).Some?;
    } else {
      forall fuel: nat ensures ChunkLoop(text, 0, chunkSize, overlap, fuel) == None {
        ChunkLoopDiverges(text, 0, chunkSize, overlap, fuel);
      }
    }
  }

  /** Window `i` is `text[i*step .. min(i*step + chunkSize, len)]`: it starts
      inside the text and is never longer than `chunkSize`. */
  lemma ChunkIsWindow(text: string, chunkSize: int, overlap: int, i: nat)
    requires 0 <= chunkSize && overlap < chunkSize
    requires i < |Chunks(text, chunkSize, overlap)|
    ensures i * (chunkSize - overlap) < |text|
    ensures Chunks(text, chunkSize, overlap)[i]
            == text[i * (chunkSize - overlap) .. Min(i * (chunkSize - overlap) + chunkSize, |text|)]
    ensures |Chunks(text, chunkSize, overlap)[i]| <= chunkSize
  {
    var step := chunkSize - overlap;
    var start := i * step;
    ChunkCountBounds(|text|, step);
    MulMonotone(0, i, step);
    MulMonotone(i, ChunkCount(|text|, step) - 1, step);
    assert Chunks(text, chunkSize, overlap)[i] == Slice(text, start, start + chunkSize);
    SliceInside(text, start, start + chunkSize);
  }

  /** Character `j` lies in window `i` of the chunks of `text`. */
  ghost predicate Covers(text: string, chunkSize: int, overlap: int, i: int, j: int)
    requires Terminates(|text|, chunkSize, overlap)
  {
    var chunks := Chunks(text, chunkSize, overlap);
    && 0 <= i < |chunks|
    && overlap < chunkSize
    && i * (chunkSize - overlap) <= j < i * (chunkSize - overlap) + |chunks[i]|
    && chunks[i][j - i * (chunkSize - overlap)] == text[j]
  }

  /** With `0 <= overlap`, windows abut or overlap, so every character of the
      text is in some chunk, at its own offset. */
  lemma ChunksCover(text: string, chunkSize: int, overlap: int, j: int)
    requires 0 <= overlap < chunkSize
    requires 0 <= j < |text|
    ensures exists i :: Covers(text, chunkSize, overlap, i, j)
  {
    var step := chunkSize - overlap;
    var i := j / step;
    var start := i * step;
    DivisionBounds(j, step);
    var count := ChunkCount(|text|, step);
    ChunkCountBounds(|text|, step);
    if i >= count {
      MulMonotone(count, i, step);
    }
    ChunkIsWindow(text, chunkSize, overlap, i);
    var chunk := Chunks(text, chunkSize, overlap)[i];
    assert chunk == text[start..Min(start + chunkSize, |text|)];
    assert start <= j < start + |chunk|;
    assert Covers(text, chunkSize, overlap, i, j);
  }

  lemma DivisionBounds(j: nat, step: int)
    requires step >= 1
    ensures 0 <= (j / step) * step <= j < (j / step) * step + step
  {
    assert (j / step) * step + j % step == j;
    MulMonotone(0, j / step, step);
  }

  /** With `0 <= overlap`, the last chunk runs to the end of the text. */
  lemma LastChunkIsSuffix(text: string, chunkSize: int, overlap: int)
    requires 0 <= overlap < chunkSize && |text| > 0
    ensures var chunks := Chunks(text, chunkSize, overlap);
            var last := |chunks| - 1;
            last >= 0 && chunks[last] == text[last * (chunkSize - overlap)..|text|]
  {
    var step := chunkSize - overlap;
    var chunks := Chunks(text, chunkSize, overlap);
    LastWindowReachesEnd(|text|, step, chunkSize);
    var last := |chunks| - 1;
    var start := last * step;
    ChunkIsWindow(text, chunkSize, overlap, last);
    assert Min(start + chunkSize, |text|) == |text|;
  }

  lemma LastWindowReachesEnd(n: nat, step: int, chunkSize: int)
    requires n > 0 && 1 <= step <= chunkSize
    ensures ChunkCount(n, step) >= 1
    ensures (ChunkCount(n, step) - 1) * step + chunkSize >= n
  {
    var count := ChunkCount(n, step);
    ChunkCountBounds(n, step);
    assert (count - 1) * step + step == count * step;
  }

  /** A non-empty text gives one chunk exactly when it is no longer than the
      step, and that chunk is the whole text. */
  lemma SingleChunk(text: string, chunkSize: int, overlap: int)
    requires 0 <= overlap < chunkSize && |text| > 0
    ensures |Chunks(text, chunkSize, overlap)| == 1 <==> |text| <= chunkSize - overlap
    ensures |text| <= chunkSize - overlap ==> Chunks(text, chunkSize, overlap) == [text]
  {
    var step := chunkSize - overlap;
    ChunkCountBounds(|text|, step);
    if |text| <= step {
      ChunkCountUnique(|text|, step, 1);
      assert Chunks(text, chunkSize, overlap)[0] == text;
    }
  }

  /** With the defaults, a 700-character text is longer than the step (600)
      and yields a second chunk `text[600:700]`. */
  lemma SevenHundredCharactersGiveTwoChunks(text: string)
    requires |text| == 700
    ensures Chunks(text, DefaultChunkSize, DefaultOverlap) == [text, text[600..]]
  {
    ChunkCountUnique(700, 600, 2);
    var chunks := Chunks(text, DefaultChunkSize, DefaultOverlap);
    assert chunks == Chunks(text, 800, 200);
    assert |chunks| == 2;
    ChunkIsWindow(text, 800, 200, 0);
    ChunkIsWindow(text, 800, 200, 1);
    assert 1 * (800 - 200) == 600;
    assert chunks[0] == text[0..700];
    assert chunks[1] == text[600..700];
    assert text[0..700] == text;
  }

  // ---------------------------------------------------------------------
  // ingest_cuad_documents

  /** A paragraph object of the parsed corpus; `None` when it has no
      "context" key. */
  datatype Paragraph = Paragraph(context: Option<string>)

  /** A document object: its "title", when present, and its "paragraphs"
      (a missing "paragraphs" key reads as the empty list). */
  datatype Document = Document(title: Option<string>, paragraphs: seq<Paragraph>)

  datatype Metadata = Metadata(
    source: string,
    contractId: nat,
    paragraphId: nat,
    chunkId: nat,
    contractTitle: string)

  /** One flat record: a chunk's text and where it came from. */
  datatype Record = Record(text: string, metadata: Metadata)

  /** `doc.get("title", f"Contract-{contract_id}")` */
  function ContractTitle(contractId: nat, doc: Document): (title: string)
    ensures doc.title.None? ==>
              && |title| > 9 && title[..9] == "Contract-"
              && (forall i :: 9 <= i < |title| ==> '0' <= title[i] <= '9')
              && (|title| > 10 ==> title[9] != '0')
  {
    match doc.title
    case Some(title) => title
    case None => "Contract-" + DecimalString(contractId)
  }

  /** A present title is used as it is; a missing one becomes "Contract-"
      followed by the decimal digits of the document's position. */
  lemma ContractTitleCases(contractId: nat, doc: Document)
    ensures doc.title.Some? ==> ContractTitle(contractId, doc) == doc.title.value
    ensures doc.title.None? ==>
              var title := ContractTitle(contractId, doc);
              && |title| > 9 && title[..9] == "Contract-"
              && (forall i :: 9 <= i < |title| ==> '0' <= title[i] <= '9')
              && (|title| > 10 ==> title[9] != '0')
              && DecimalValue(title[9..]) == contractId
  {
    if doc.title.None? {
      var title := ContractTitle(contractId, doc);
      assert title[9..] == DecimalString(contractId);
      DecimalRoundTrip(contractId);
    }
  }

  /** `para.get("context", "").strip()` */
  function StrippedContext(para: Paragraph): (context: string)
    ensures Trimmed(context)
    ensures para.context.Some? ==> |context| <= |para.context.value|
    ensures para.context.None? ==> context == []
  {
    Strip(match para.context case Some(c) => c case None => "")
  }

  /** The chunks a paragraph contributes: none when its stripped context is
      empty (the paragraph is skipped), otherwise `chunk_text` of that
      context with the default sizes. */
  function ParagraphChunks(para: Paragraph): (chunks: seq<string>)
    ensures chunks == [] <==> StrippedContext(para) == []
  {
    var context := StrippedContext(para);
    if context == [] then [] else Chunks(context, DefaultChunkSize, DefaultOverlap)
  }

  /** One record per chunk of paragraph `paragraphId`, numbered by position. */
  function ChunkRecords(contractId: nat, contractTitle: string, paragraphId: nat, chunks: seq<string>): (records: seq<Record>)
    ensures |records| == |chunks|
    ensures Ordered(records)
  {
    seq(|chunks|, k requires 0 <= k < |chunks| =>
      Record(chunks[k], Metadata(Source, contractId, paragraphId, k, contractTitle)))
  }

  // The flattening is stated over plain data: the title of each document
  // and, per document, the chunk list of each paragraph. `Ingest` applies
  // it to `Titles(corpus)` and `ChunkTable(corpus)`.

  /** The records of one document whose paragraphs have the chunk lists `lists`. */
  function FlattenDocument(contractId: nat, contractTitle: string, lists: seq<seq<string>>): seq<Record>
  {
    if lists == [] then []
    else FlattenDocument(contractId, contractTitle, lists[..|lists| - 1])
         + ChunkRecords(contractId, contractTitle, |lists| - 1, lists[|lists| - 1])
  }

  /** The records of documents with titles `titles` and chunk lists `table`. */
  function FlattenCorpus(titles: seq<string>, table: seq<seq<seq<string>>>): seq<Record>
    requires |titles| == |table|
  {
    if table == [] then []
    else FlattenCorpus(titles[..|titles| - 1], table[..|table| - 1])
         + FlattenDocument(|table| - 1, titles[|titles| - 1], table[|table| - 1])
  }

  lemma FlattenDocumentAppend(contractId: nat, contractTitle: string, lists: seq<seq<string>>, chunks: seq<string>)
    ensures FlattenDocument(contractId, contractTitle, lists + [chunks])
            == FlattenDocument(contractId, contractTitle, lists) + ChunkRecords(contractId, contractTitle, |lists|, chunks)
  {
    assert (lists + [chunks])[..|lists|] == lists;
  }

  /** The contract title of every document, by position. */
  function Titles(corpus: seq<Document>): (titles: seq<string>)
    ensures |titles| == |corpus|
  {
    seq(|corpus|, c requires 0 <= c < |corpus| => ContractTitle(c, corpus[c]))
  }

  function DocumentChunkLists(doc: Document): (lists: seq<seq<string>>)
    ensures |lists| == |doc.paragraphs|
  {
    seq(|doc.paragraphs|, p requires 0 <= p < |doc.paragraphs| => ParagraphChunks(doc.paragraphs[p]))
  }

  function ChunkTable(corpus: seq<Document>): (table: seq<seq<seq<string>>>)
    ensures |table| == |corpus|
  {
    seq(|corpus|, c requires 0 <= c < |corpus| => DocumentChunkLists(corpus[c]))
  }

  /** Extending the corpus prefix by document `c` appends its records. */
  lemma FlattenCorpusStep(corpus: seq<Document>, c: nat)
    requires c < |corpus|
    ensures FlattenCorpus(Titles(corpus)[..c + 1], ChunkTable(corpus)[..c + 1])
            == FlattenCorpus(Titles(corpus)[..c], ChunkTable(corpus)[..c])
               + FlattenDocument(c, ContractTitle(c, corpus[c]), DocumentChunkLists(corpus[c]))
  {
    var titles, table := Titles(corpus)[..c + 1], ChunkTable(corpus)[..c + 1];
    assert titles[..c] == Titles(corpus)[..c];
    assert table[..c] == ChunkTable(corpus)[..c];
  }

  /** What `ingest_cuad_documents` returns for a parsed corpus. */
  function Ingest(corpus: seq<Document>): (records: seq<Record>)
    ensures |records| == TotalChunks(corpus)
  {
    FlatCorpusCount(Titles(corpus), ChunkTable(corpus));
    FlattenCorpus(Titles(corpus), ChunkTable(corpus))
  }

  /** The innermost loop of `ingest_cuad_documents`: append one record per
      chunk, numbered by its position in `chunks`. */
  method AppendChunkRecords(documents: seq<Record>, contractId: nat, contractTitle: string, paragraphId: nat, chunks: seq<string>)
    returns (extended: seq<Record>)
    ensures extended == documents + ChunkRecords(contractId, contractTitle, paragraphId, chunks)
  {
    extended := documents;
    ghost var expected := ChunkRecords(contractId, contractTitle, paragraphId, chunks);
    for chunkId := 0 to |chunks|
      invariant extended == documents + expected[..chunkId]
    {
      extended := extended + [Record(chunks[chunkId], Metadata(Source, contractId, paragraphId, chunkId, contractTitle))];
      assert expected[..chunkId + 1] == expected[..chunkId] + [expected[chunkId]];
    }
    assert expected[..|chunks|] == expected;
  }

  /** The start of the paragraph loop body of `ingest_cuad_documents`: strip
      the context (a missing one reads as empty) and chunk it, or produce no
      chunk when it is blank. */
  method ChunkParagraph(para: Paragraph) returns (chunks: seq<string>)
    ensures chunks == ParagraphChunks(para)
  {
    var context := StrippedContext(para);
    if context == [] {
      return [];
    }
    chunks := ChunkText(context, DefaultChunkSize, DefaultOverlap);
  }

  /** One iteration of the paragraph loop keeps its invariant. */
  lemma DocumentStep(documents: seq<Record>, contractId: nat, contractTitle: string, doc: Document,
                     paraId: nat, lists: seq<seq<string>>, chunks: seq<string>)
    requires paraId < |doc.paragraphs| && lists == DocumentChunkLists(doc)[..paraId]
    requires chunks == ParagraphChunks(doc.paragraphs[paraId])
    ensures lists + [chunks] == DocumentChunkLists(doc)[..paraId + 1]
    ensures documents + FlattenDocument(contractId, contractTitle, lists) + ChunkRecords(contractId, contractTitle, paraId, chunks)
            == documents + FlattenDocument(contractId, contractTitle, lists + [chunks])
  {
    assert DocumentChunkLists(doc)[..paraId + 1] == lists + [chunks];
    FlattenDocumentAppend(contractId, contractTitle, lists, chunks);
  }

  /** The paragraph loop of `ingest_cuad_documents` for document number
      `contractId`: skip blank contexts, chunk the rest and append one record
      per chunk. */
  method AppendDocumentRecords(documents: seq<Record>, contractId: nat, doc: Document)
    returns (extended: seq<Record>)
    ensures extended == documents + FlattenDocument(contractId, ContractTitle(contractId, doc), DocumentChunkLists(doc))
  {
    extended := documents;
    var contractTitle := ContractTitle(contractId, doc);
    ghost var lists: seq<seq<string>> := [];
    for paraId := 0 to |doc.paragraphs|
      invariant lists == DocumentChunkLists(doc)[..paraId]
      invariant extended == documents + FlattenDocument(contractId, contractTitle, lists)
    {
      var chunks := ChunkParagraph(doc.paragraphs[paraId]);
      DocumentStep(documents, contractId, contractTitle, doc, paraId, lists, chunks);
      extended := AppendChunkRecords(extended, contractId, contractTitle, paraId, chunks);
      lists := lists + [chunks];
    }
    assert lists == DocumentChunkLists(doc);
  }

  /** `ingest_cuad_documents` on an already parsed corpus: enumerate the
      documents and append the records of each. */
  method IngestCuadDocuments(corpus: seq<Document>) returns (documents: seq<Record>)
    ensures documents == Ingest(corpus)
    ensures |documents| == TotalChunks(corpus)
  {
    documents := [];
    for contractId := 0 to |corpus|
      invariant documents == FlattenCorpus(Titles(corpus)[..contractId], ChunkTable(corpus)[..contractId])
    {
      documents := AppendDocumentRecords(documents, contractId, corpus[contractId]);
      FlattenCorpusStep(corpus, contractId);
    }
    assert Titles(corpus)[..|corpus|] == Titles(corpus);
    assert ChunkTable(corpus)[..|corpus|] == ChunkTable(corpus);
  }

  // ---------------------------------------------------------------------
  // Properties of the flattened records

  /** The number of chunks in a list of chunk lists. */
  function ListsSize(lists: seq<seq<string>>): nat
  {
    if lists == [] then 0 else ListsSize(lists[..|lists| - 1]) + |lists[|lists| - 1]|
  }

  function TableSize(table: seq<seq<seq<string>>>): nat
  {
    if table == [] then 0 else TableSize(table[..|table| - 1]) + ListsSize(table[|table| - 1])
  }

  /** The total chunk count of the corpus: the sum over all paragraphs of
      their chunk counts. */
  function TotalChunks(corpus: seq<Document>): nat
  {
    TableSize(ChunkTable(corpus))
  }

  /** A paragraph yields `ceil(len / 600)` chunks of its stripped context,
      and none when that context is empty. */
  lemma ParagraphChunkCount(para: Paragraph)
    ensures |ParagraphChunks(para)| == ChunkCount(|StrippedContext(para)|, DefaultChunkSize - DefaultOverlap)
    ensures StrippedContext(para) == [] ==> ParagraphChunks(para) == []
  {
  }

  lemma {:induction false} FlatDocumentCount(contractId: nat, contractTitle: string, lists: seq<seq<string>>)
    ensures |FlattenDocument(contractId, contractTitle, lists)| == ListsSize(lists)
  {
    if lists != [] {
      FlatDocumentCount(contractId, contractTitle, lists[..|lists| - 1]);
    }
  }

  lemma {:induction false} FlatCorpusCount(titles: seq<string>, table: seq<seq<seq<string>>>)
    requires |titles| == |table|
    ensures |FlattenCorpus(titles, table)| == TableSize(table)
  {
    if table != [] {
      FlatCorpusCount(titles[..|titles| - 1], table[..|table| - 1]);
      FlatDocumentCount(|table| - 1, titles[|titles| - 1], table[|table| - 1]);
    }
  }

  /** Strict lexicographic order on `(contract_id, paragraph_id, chunk_id)`. */
  predicate KeyBefore(a: Metadata, b: Metadata)
  {
    || a.contractId < b.contractId
    || (a.contractId == b.contractId && a.paragraphId < b.paragraphId)
    || (a.contractId == b.contractId && a.paragraphId == b.paragraphId && a.chunkId < b.chunkId)
  }

  ghost predicate Ordered(records: seq<Record>)
  {
    forall i, j :: 0 <= i < j < |records| ==> KeyBefore(records[i].metadata, records[j].metadata)
  }

  lemma OrderedAppend(a: seq<Record>, b: seq<Record>)
    requires Ordered(a) && Ordered(b)
    requires forall i, j :: 0 <= i < |a| && 0 <= j < |b| ==> KeyBefore(a[i].metadata, b[j].metadata)
    ensures Ordered(a + b)
  {
    var ab := a + b;
    forall i, j | 0 <= i < j < |ab| ensures KeyBefore(ab[i].metadata, ab[j].metadata) {
      if j < |a| {
        assert ab[i] == a[i] && ab[j] == a[j];
      } else if i < |a| {
        assert ab[i] == a[i] && ab[j] == b[j - |a|];
      } else {
        assert ab[i] == b[i - |a|] && ab[j] == b[j - |a|];
      }
    }
  }

  /** The records of one document carry its number and come ordered by
      paragraph, then chunk. */
  lemma {:induction false} FlatDocumentOrdered(contractId: nat, contractTitle: string, lists: seq<seq<string>>)
    ensures Ordered(FlattenDocument(contractId, contractTitle, lists))
    ensures forall r :: r in FlattenDocument(contractId, contractTitle, lists) ==>
              r.metadata.contractId == contractId && r.metadata.paragraphId < |lists|
  {
    if lists != [] {
      var n := |lists| - 1;
      var prev := FlattenDocument(contractId, contractTitle, lists[..n]);
      var last := ChunkRecords(contractId, contractTitle, n, lists[n]);
      FlatDocumentOrdered(contractId, contractTitle, lists[..n]);
      forall i, j | 0 <= i < |prev| && 0 <= j < |last|
        ensures KeyBefore(prev[i].metadata, last[j].metadata)
      {
        assert prev[i] in prev;
      }
      OrderedAppend(prev, last);
    }
  }

  /** The records of documents `0 .. |table|-1` carry contract numbers in
      that range and are ordered. */
  lemma {:induction false} FlatCorpusOrdered(titles: seq<string>, table: seq<seq<seq<string>>>)
    requires |titles| == |table|
    ensures Ordered(FlattenCorpus(titles, table))
    ensures forall r :: r in FlattenCorpus(titles, table) ==> r.metadata.contractId < |table|
  {
    if table != [] {
      var n := |table| - 1;
      var prev := FlattenCorpus(titles[..n], table[..n]);
      var last := FlattenDocument(n, titles[n], table[n]);
      FlatCorpusOrdered(titles[..n], table[..n]);
      FlatDocumentOrdered(n, titles[n], table[n]);
      forall i, j | 0 <= i < |prev| && 0 <= j < |last|
        ensures KeyBefore(prev[i].metadata, last[j].metadata)
      {
        assert prev[i] in prev && last[j] in last;
      }
      OrderedAppend(prev, last);
    }
  }

  /** The records come out strictly ordered by `(contract_id, paragraph_id,
      chunk_id)`, so no two records share those ids. */
  lemma IngestOrdered(corpus: seq<Document>)
    ensures Ordered(Ingest(corpus))
  {
    FlatCorpusOrdered(Titles(corpus), ChunkTable(corpus));
  }

  /** Chunk `k` of chunk list `p` of document `c` exists in the table. */
  predicate InTable(table: seq<seq<seq<string>>>, c: nat, p: nat, k: nat)
  {
    c < |table| && p < |table[c]| && k < |table[c][p]|
  }

  lemma {:induction false} FlatDocumentSound(contractId: nat, contractTitle: string, lists: seq<seq<string>>)
    ensures forall r :: r in FlattenDocument(contractId, contractTitle, lists) ==>
              var m := r.metadata;
              m.contractId == contractId && m.paragraphId < |lists| && m.chunkId < |lists[m.paragraphId]|
              && r == Record(lists[m.paragraphId][m.chunkId], Metadata(Source, contractId, m.paragraphId, m.chunkId, contractTitle))
  {
    if lists != [] {
      var n := |lists| - 1;
      FlatDocumentSound(contractId, contractTitle, lists[..n]);
      var last := ChunkRecords(contractId, contractTitle, n, lists[n]);
      forall r | r in last
        ensures r.metadata.paragraphId == n && r.metadata.chunkId < |lists[n]|
        ensures r == Record(lists[n][r.metadata.chunkId], Metadata(Source, contractId, n, r.metadata.chunkId, contractTitle))
      {
        var k :| 0 <= k < |last| && last[k] == r;
      }
    }
  }

  lemma {:induction false} FlatCorpusSound(titles: seq<string>, table: seq<seq<seq<string>>>)
    requires |titles| == |table|
    ensures forall r :: r in FlattenCorpus(titles, table) ==>
              var m := r.metadata;
              InTable(table, m.contractId, m.paragraphId, m.chunkId)
              && r == Record(table[m.contractId][m.paragraphId][m.chunkId],
                             Metadata(Source, m.contractId, m.paragraphId, m.chunkId, titles[m.contractId]))
  {
    if table != [] {
      var n := |table| - 1;
      FlatCorpusSound(titles[..n], table[..n]);
      FlatDocumentSound(n, titles[n], table[n]);
    }
  }

  lemma {:induction false} FlatDocumentComplete(contractId: nat, contractTitle: string, lists: seq<seq<string>>, p: nat, k: nat)
    requires p < |lists| && k < |lists[p]|
    ensures Record(lists[p][k], Metadata(Source, contractId, p, k, contractTitle))
            in FlattenDocument(contractId, contractTitle, lists)
  {
    var n := |lists| - 1;
    if p < n {
      FlatDocumentComplete(contractId, contractTitle, lists[..n], p, k);
    } else {
      var last := ChunkRecords(contractId, contractTitle, n, lists[n]);
      assert last[k] == Record(lists[p][k], Metadata(Source, contractId, p, k, contractTitle));
    }
  }

  lemma {:induction false} FlatCorpusComplete(titles: seq<string>, table: seq<seq<seq<string>>>, c: nat, p: nat, k: nat)
    requires |titles| == |table| && InTable(table, c, p, k)
    ensures Record(table[c][p][k], Metadata(Source, c, p, k, titles[c])) in FlattenCorpus(titles, table)
  {
    var n := |table| - 1;
    if c < n {
      FlatCorpusComplete(titles[..n], table[..n], c, p, k);
    } else {
      FlatDocumentComplete(c, titles[c], table[c], p, k);
    }
  }

  /** Chunk `k` of paragraph `p` of document `c` exists. */
  predicate IsChunkSlot(corpus: seq<Document>, c: nat, p: nat, k: nat)
  {
    c < |corpus| && p < |corpus[c].paragraphs| && k < |ParagraphChunks(corpus[c].paragraphs[p])|
  }

  /** The record for chunk `k` of paragraph `p` of document `c`: the chunk's
      text, source "CUAD", the three enumeration positions, and the title (or
      "Contract-<c>" when the document has no title). */
  function SlotRecord(corpus: seq<Document>, c: nat, p: nat, k: nat): Record
    requires IsChunkSlot(corpus, c, p, k)
  {
    var doc := corpus[c];
    Record(ParagraphChunks(doc.paragraphs[p])[k], Metadata(Source, c, p, k, ContractTitle(c, doc)))
  }

  /** Every record is the record of an existing chunk, named by the record's
      own ids: its text is that chunk of the paragraph's stripped context, its
      source is "CUAD", and its title is the document's (or "Contract-<id>"). */
  lemma IngestSound(corpus: seq<Document>)
    ensures forall r :: r in Ingest(corpus) ==>
              var m := r.metadata;
              IsChunkSlot(corpus, m.contractId, m.paragraphId, m.chunkId)
              && r == SlotRecord(corpus, m.contractId, m.paragraphId, m.chunkId)
  {
    var titles, table := Titles(corpus), ChunkTable(corpus);
    FlatCorpusSound(titles, table);
    forall r | r in Ingest(corpus)
      ensures IsChunkSlot(corpus, r.metadata.contractId, r.metadata.paragraphId, r.metadata.chunkId)
      ensures r == SlotRecord(corpus, r.metadata.contractId, r.metadata.paragraphId, r.metadata.chunkId)
    {
      var c, p := r.metadata.contractId, r.metadata.paragraphId;
      assert table[c][p] == ParagraphChunks(corpus[c].paragraphs[p]);
    }
  }

  /** Every chunk of every non-blank paragraph has its record. */
  lemma IngestComplete(corpus: seq<Document>, c: nat, p: nat, k: nat)
    requires IsChunkSlot(corpus, c, p, k)
    ensures SlotRecord(corpus, c, p, k) in Ingest(corpus)
  {
    var titles, table := Titles(corpus), ChunkTable(corpus);
    assert table[c][p] == ParagraphChunks(corpus[c].paragraphs[p]);
    FlatCorpusComplete(titles, table, c, p, k);
  }

  /** A paragraph whose stripped context is empty produces no record, and
      the paragraphs after it keep their raw positions: the ids have a gap. */
  lemma BlankParagraphLeavesGap(corpus: seq<Document>, c: nat, p: nat)
    requires c < |corpus| && p < |corpus[c].paragraphs|
    requires StrippedContext(corpus[c].paragraphs[p]) == []
    ensures forall r :: r in Ingest(corpus) ==>
              !(r.metadata.contractId == c && r.metadata.paragraphId == p)
  {
    IngestSound(corpus);
  }

  /** One untitled document with the single paragraph
      "Termination occurs upon breach." gives exactly one record, with ids 0/0/0. */
  lemma SingleParagraphExample()
    ensures Ingest([Document(None, [Paragraph(Some("Termination occurs upon breach."))])])
            == [Record("Termination occurs upon breach.", Metadata("CUAD", 0, 0, 0, "Contract-0"))]
  {
    var text := "Termination occurs upon breach.";
    var doc := Document(None, [Paragraph(Some(text))]);
    var corpus := [doc];
    assert text == [] + text + [];
    StripPadded([], text, []);
    assert StrippedContext(doc.paragraphs[0]) == text;
    SingleChunk(text, DefaultChunkSize, DefaultOverlap);
    assert ParagraphChunks(doc.paragraphs[0]) == [text];
    assert ContractTitle(0, doc) == "Contract-0";
    assert Titles(corpus) == ["Contract-0"];
    assert DocumentChunkLists(doc) == [[text]];
    assert ChunkTable(corpus) == [[[text]]];
    assert FlattenDocument(0, "Contract-0", [[text]]) == ChunkRecords(0, "Contract-0", 0, [text]);
    assert Titles(corpus)[..0] == [] && ChunkTable(corpus)[..0] == [];
  }
}
