/**
 * The earlier retrieval-augmented generation script (src/rag_gen/rag.py):
 * retrieve the top match for a question, join the first result batch into
 * a context, and send one prompt holding the context and the question to
 * the model. The model is an uninterpreted function from prompt to answer.
 */
module Rag {
  import opened Text
  import opened Store
  import opened Database

  /** `n_results` when `query_chromadb` is given none. */
  const TopResults: nat := 1

  /** The context used when the store answers no batch at all. */
  const NoDocuments := "No relevant documents found."

  const ContextLabel := "Context: "
  const QuestionLabel := "\n\nQuestion: "
  const AnswerLabel := "\nAnswer:"

  /** `" ".join(retrieved_docs[0]) if retrieved_docs else "No relevant documents found."` */
  function Context(batches: seq<seq<string>>): string {
    if batches == [] then NoDocuments else JoinWith(" ", batches[0])
  }

  /** The augmented prompt. */
  function Prompt(context: string, question: string): string {
    ContextLabel + context + QuestionLabel + question + AnswerLabel
  }

  /** What one `rag_pipeline(query_text)` call sends and answers. */
  datatype Exchange = Exchange(texts: seq<string>, n: nat, prompt: string, answer: string)

  /** `rag_pipeline(query_text)`: one top-1 query with the question itself, then one model call. */
  function RagPipeline(search: Search, records: seq<Record>, generate: string -> string, question: string): (e: Exchange)
    ensures e.texts == [question] && e.n == TopResults
    ensures e.prompt == Prompt(Context(search(records, [question], TopResults).documents), question)
    ensures e.answer == generate(e.prompt)
  {
    var results := search(records, [question], TopResults);
    var prompt := Prompt(Context(results.documents), question);
    Exchange([question], TopResults, prompt, generate(prompt))
  }

  /**
   * The fallback text appears only when the store answers no batch; an
   * empty first batch gives an empty context, a single document is the
   * whole context, and batches after the first are never used.
   */
  lemma ContextCases(batches: seq<seq<string>>)
    ensures batches == [] ==> Context(batches) == NoDocuments
    ensures batches != [] && batches[0] == [] ==> Context(batches) == ""
    ensures batches != [] && |batches[0]| == 1 ==> Context(batches) == batches[0][0]
    ensures batches != [] ==> Context(batches) == Context(batches[..1])
  {
  }

  /** Cancelling a common suffix. */
  lemma SameSuffix(a: string, b: string, t: string)
    requires a + t == b + t
    ensures a == b
  {
    assert |a| == |b|;
    assert forall i :: 0 <= i < |a| ==> a[i] == (a + t)[i] && b[i] == (b + t)[i];
  }

  /** Cancelling a common prefix. */
  lemma SamePrefix(t: string, a: string, b: string)
    requires t + a == t + b
    ensures a == b
  {
    assert a == (t + a)[|t|..] && b == (t + b)[|t|..];
  }

  /** The prompt cut at its last newline before the answer label. */
  lemma PromptParts(c: string, q: string)
    ensures Prompt(c, q) == ((ContextLabel + c + "\n") + ['\n'] + ("Question: " + q)) + AnswerLabel
  {
    assert QuestionLabel == "\n" + ['\n'] + "Question: ";
  }

  /**
   * For questions on one line, the prompt determines both the question and
   * the context: different contexts or questions never give the same
   * prompt.
   */
  lemma PromptInjective(c1: string, q1: string, c2: string, q2: string)
    requires '\n' !in q1 && '\n' !in q2
    requires Prompt(c1, q1) == Prompt(c2, q2)
    ensures c1 == c2 && q1 == q2
  {
    var head1, head2 := ContextLabel + c1 + "\n", ContextLabel + c2 + "\n";
    var tail1, tail2 := "Question: " + q1, "Question: " + q2;
    PromptParts(c1, q1);
    PromptParts(c2, q2);
    SameSuffix(head1 + ['\n'] + tail1, head2 + ['\n'] + tail2, AnswerLabel);
    assert '\n' !in tail1 && '\n' !in tail2;
    SplitAtLastSep(head1, tail1, head2, tail2, '\n');
    SameSuffix(ContextLabel + c1, ContextLabel + c2, "\n");
    SamePrefix(ContextLabel, c1, c2);
    SamePrefix("Question: ", q1, q2);
  }

  /** Two questions that reach the model with the same prompt are the same question, retrieved the same way. */
  lemma SamePromptSameQuestion(search: Search, records: seq<Record>, generate: string -> string, q1: string, q2: string)
    requires '\n' !in q1 && '\n' !in q2
    requires RagPipeline(search, records, generate, q1).prompt == RagPipeline(search, records, generate, q2).prompt
    ensures q1 == q2
  {
    PromptInjective(Context(search(records, [q1], TopResults).documents), q1,
                    Context(search(records, [q2], TopResults).documents), q2);
  }
}
