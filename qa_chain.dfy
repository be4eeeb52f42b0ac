/**
  Prompt assembly and answer generation of the question-answering chain
  (src/llm/qa_chain.py). The text-generation pipeline is a parameter: a
  function from the prompt to the list of generated texts it returns.
 */
module QaChain {
  import opened Wrappers
  import opened Text
  import JsonLoader

  /** The indentation of every non-blank line of the prompt template. */
  const Indent: string := "            "
  /** The word the first and the last line of the prompt start with. */
  const AnswerWord: string := "Answer"
  const Instruction: string := AnswerWord + " the question using ONLY the context below."
  const SentinelLine: string := "If the answer is not present, say exactly: Not found in document."
  const Separator: string := "\n\n"

  /** The first line of the prompt and the indentation of the second. */
  const FirstLine: string := Instruction + "\n" + Indent
  /** The heading of the context block. */
  const ContextHeading: string := "\n\n" + Indent + "Context:\n" + Indent
  /** The fixed text of the stripped prompt before the context block. */
  const Preamble: string := FirstLine + SentinelLine + ContextHeading
  /** The fixed text between the context block and the query. */
  const BeforeQuery: string := "\n\n" + Indent + "Question:\n" + Indent
  /** The fixed text after the query. */
  const Closing: string := "\n\n" + Indent + AnswerWord + ":"

  /** Where the sentinel instruction starts in every prompt. */
  const SentinelAt: nat := |FirstLine|

  /** The whitespace the template puts before the first and after the last
      line of the prompt. */
  const TemplateLead: string := "\n" + Indent
  const TemplateTrail: string := "\n" + Indent

  /** A retrieved record: the chunk text, its metadata and the similarity score. */
  datatype RetrievedDoc = RetrievedDoc(text: string, metadata: JsonLoader.Metadata, score: real)

  /** The lines of the prompt template with the context block and the query
      filled in. */
  function Body(contextBlock: string, query: string): string
  {
    Preamble + contextBlock + BeforeQuery + query + Closing
  }

  /** The f-string of `build_prompt`, before the final strip: the body between
      the template's leading and trailing whitespace. */
  function Template(contextBlock: string, query: string): string
  {
    TemplateLead + Body(contextBlock, query) + TemplateTrail
  }

  /** `build_prompt`: join the contexts with a blank line, fill the template,
      strip the result. */
  function BuildPrompt(query: string, contexts: seq<string>): (prompt: string)
    ensures Trimmed(prompt)
  {
    Strip(Template(Join(Separator, contexts), query))
  }

  /** The preamble starts with the instruction and holds the sentinel line
      at `SentinelAt`. */
  lemma PreambleFacts()
    ensures |Preamble| >= SentinelAt + |SentinelLine|
    ensures Preamble[..|Instruction|] == Instruction
    ensures Preamble[SentinelAt..SentinelAt + |SentinelLine|] == SentinelLine
    ensures Preamble[0] == 'A'
  {
    var withSentinel := FirstLine + SentinelLine;
    assert Preamble[..|withSentinel|] == withSentinel;
    assert withSentinel[SentinelAt..] == SentinelLine;
    assert withSentinel[..|Instruction|] == FirstLine[..|Instruction|];
    assert FirstLine[..|Instruction|] == Instruction;
    assert Instruction[0] == AnswerWord[0] == 'A';
  }

  /** The closing ends with "Answer:". */
  lemma ClosingFacts()
    ensures |Closing| >= 7 && Closing[|Closing| - 7..] == "Answer:"
    ensures Closing[|Closing| - 1] == ':'
  {
  }

  /** The strip removes exactly the template's outer whitespace, whatever the
      contexts and the query hold: the prompt is the fixed preamble, the
      joined contexts, fixed text, the query and the fixed closing. */
  lemma PromptShape(query: string, contexts: seq<string>)
    ensures BuildPrompt(query, contexts) == Preamble + Join(Separator, contexts) + BeforeQuery + query + Closing
  {
    var body := Body(Join(Separator, contexts), query);
    PreambleFacts();
    ClosingFacts();
    assert body[0] == 'A';
    assert body[|body| - 1] == ':';
    assert AllSpace(TemplateLead) && AllSpace(TemplateTrail);
    StripPadded(TemplateLead, body, TemplateTrail);
  }

  /** Every prompt starts with the instruction, carries the sentinel
      instruction at a fixed place, and ends with "Answer:". */
  lemma PromptFrame(query: string, contexts: seq<string>)
    ensures var prompt := BuildPrompt(query, contexts);
            && |prompt| >= SentinelAt + |SentinelLine|
            && prompt[..|Instruction|] == Instruction
            && prompt[SentinelAt..SentinelAt + |SentinelLine|] == SentinelLine
            && prompt[|prompt| - 7..] == "Answer:"
  {
    var middle := Join(Separator, contexts) + BeforeQuery + query;
    PromptShape(query, contexts);
    PreambleFacts();
    ClosingFacts();
    var prompt := Preamble + middle + Closing;
    assert prompt[..|Preamble|] == Preamble;
    assert prompt[|prompt| - |Closing|..] == Closing;
  }

  /** With no contexts the prompt is still produced: the context block is
      empty and the instructions, sentinel included, are all there. */
  lemma PromptWithoutContexts(query: string)
    ensures BuildPrompt(query, []) == Preamble + BeforeQuery + query + Closing
    ensures BuildPrompt(query, [])[SentinelAt..SentinelAt + |SentinelLine|] == SentinelLine
  {
    PromptShape(query, []);
    PromptFrame(query, []);
    assert Preamble + Join(Separator, []) == Preamble;
  }

  /** `[doc["text"] for doc in retrieved_docs]`. */
  function Texts(docs: seq<RetrievedDoc>): (texts: seq<string>)
    ensures |texts| == |docs|
    ensures forall i :: 0 <= i < |docs| ==> texts[i] == docs[i].text
  {
    if docs == [] then [] else [docs[0].text] + Texts(docs[1..])
  }

  /** `generate_answer`: build the prompt from the texts of the retrieved
      records, call the generator once, take the first generated text and
      strip it. `None` when the generator returns an empty list (indexing it
      fails). */
  function GenerateAnswer(generate: string -> seq<string>, query: string, docs: seq<RetrievedDoc>): (answer: Option<string>)
    ensures answer.Some? ==> Trimmed(answer.value)
  {
    var outputs := generate(BuildPrompt(query, Texts(docs)));
    if outputs == [] then None else Some(Strip(outputs[0]))
  }

  /** The answer is the stripped first output of one call of the generator on
      the prompt built from the record texts in their given order; it neither
      starts nor ends with whitespace. */
  lemma AnswerShape(generate: string -> seq<string>, query: string, docs: seq<RetrievedDoc>)
    ensures var outputs := generate(Preamble + Join(Separator, Texts(docs)) + BeforeQuery + query + Closing);
            && (GenerateAnswer(generate, query, docs).Some? <==> outputs != [])
            && (outputs != [] ==> GenerateAnswer(generate, query, docs) == Some(Strip(outputs[0])))
            && (GenerateAnswer(generate, query, docs).Some? ==> Trimmed(GenerateAnswer(generate, query, docs).value))
  {
    PromptShape(query, Texts(docs));
  }

  /** Only the texts reach the generator: records that differ in metadata or
      score but carry the same texts in the same order give the same answer. */
  lemma AnswerIgnoresMetadata(generate: string -> seq<string>, query: string, a: seq<RetrievedDoc>, b: seq<RetrievedDoc>)
    requires |a| == |b|
    requires forall i :: 0 <= i < |a| ==> a[i].text == b[i].text
    ensures GenerateAnswer(generate, query, a) == GenerateAnswer(generate, query, b)
  {
    assert Texts(a) == Texts(b);
  }
}
