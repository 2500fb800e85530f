/** The AI-assist use case: asks the language model to improve a text and
    logs the prompt with the trimmed response. The model is a parameter
    (`llm`), whose answer for a prompt is a completion or a thrown error. */
module AiAssist {
  import opened Wrappers
  import opened Text
  import opened Errors
  import opened PromptLogStore

  datatype AssistInput = AssistInput(prompt: Option<string>, articleContent: Option<string>, articleId: Option<string>)

  datatype AssistResult = AssistResult(improvedContent: string, originalPrompt: string, rawResponse: string, log: PromptLog)

  const Preamble := "Given the existing article content below, improve it according to the instruction.\nInstruction: "
  const Separator := "\n---\nCONTENT:\n"

  /** What the model is asked: with article content, the instruction and the
      content in a fixed template; without, the prompt itself. */
  function ModelPrompt(prompt: string, articleContent: Option<string>): (q: string)
    ensures articleContent.None? || articleContent.value == [] ==> q == prompt
  {
    if articleContent.Some? && articleContent.value != [] then Preamble + prompt + Separator + articleContent.value
    else prompt
  }

  /** The template hands the model both the instruction and the content,
      in that order. */
  lemma ModelPromptCarriesBoth(prompt: string, content: string)
    requires content != []
    ensures var q := ModelPrompt(prompt, Some(content));
      Contains(q, prompt) && Contains(q, content)
      && q[|Preamble|..|Preamble| + |prompt|] == prompt
      && q[|q| - |content|..] == content
  {
    var q := ModelPrompt(prompt, Some(content));
    assert q == Preamble + prompt + Separator + content;
    assert q[|Preamble|..|Preamble| + |prompt|] == prompt;
    ContainsAt(q, prompt, |Preamble|);
    assert q[|q| - |content|..] == content;
    ContainsAt(q, content, |q| - |content|);
  }

  const PromptRequired := PlainError("PROMPT_REQUIRED")

  class AiAssistService {
    const logs: InMemoryPromptLogRepository

    constructor (logs: InMemoryPromptLogRepository)
      ensures this.logs == logs
    {
      this.logs := logs;
    }

    /** `assist(input)`: a blank or missing prompt is rejected before the
        model is asked; the model is asked once; exactly one log is written
        when it answers. `asked` lists the prompts sent to the model. */
    method Assist(input: AssistInput, llm: string -> Result<string, Failure>, id: string, now: int)
      returns (r: Result<AssistResult, Failure>, asked: seq<string>)
      modifies logs
      ensures input.prompt.None? || IsBlank(input.prompt.value) ==>
        r == Failure(PromptRequired) && asked == [] && logs.logs == old(logs.logs)
      ensures input.prompt.Some? && !IsBlank(input.prompt.value) ==>
        var q := ModelPrompt(input.prompt.value, input.articleContent);
        asked == [q]
        && (llm(q).Failure? ==> r == Failure(llm(q).error) && logs.logs == old(logs.logs))
        && (llm(q).Success? ==>
              var record := PromptLog(id, input.articleId, input.prompt.value, Trim(llm(q).value), now);
              logs.logs == old(logs.logs) + [record]
              && r == Success(AssistResult(Trim(llm(q).value), input.prompt.value, llm(q).value, record)))
    {
      if input.prompt.None? || Trim(input.prompt.value) == [] {
        return Failure(PromptRequired), [];
      }
      var prompt := input.prompt.value;
      var base := ModelPrompt(prompt, input.articleContent);
      asked := [base];
      var raw := llm(base);
      if raw.Failure? {
        return Failure(raw.error), asked;
      }
      var improved := Trim(raw.value);
      var saved := logs.Save(LogEntry(input.articleId, prompt, improved), id, now);
      r := Success(AssistResult(improved, prompt, raw.value, saved));
    }
  }
}
