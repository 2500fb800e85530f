/** The editor's AI-assist panel (`useAiAssist`): whether it is shown,
    whether a request is running, the instruction being typed and the last
    answer. The HTTP call to `/ai/assist` is its outcome, a parameter. */
module AiPanel {
  import opened Wrappers
  import opened Text

  /** The body posted to `/ai/assist`. */
  datatype AssistRequest = AssistRequest(prompt: string, articleContent: string)

  /** How the request ended: an answer, a rejection with an `Error`, or a
      rejection with something that is not an `Error`. */
  datatype Outcome = Replied(improvedContent: string) | FailedWith(message: string) | FailedOther

  const ErrorPrefix := "錯誤: "
  const UnknownError := "未知錯誤"

  /** What the panel shows after the request. */
  function Shown(outcome: Outcome): (r: string)
    ensures outcome.Replied? ==> r == outcome.improvedContent
    ensures !outcome.Replied? ==> StartsWith(r, ErrorPrefix)
  {
    match outcome
    case Replied(content) => content
    case FailedWith(message) => ErrorPrefix + message
    case FailedOther => ErrorPrefix + UnknownError
  }

  /** `appendAiResult`'s text: the current content, a blank line and the
      answer; only the answer when there is no content yet. */
  function Appended(current: string, answer: string): (r: string)
    ensures StartsWith(r, current)
    ensures |r| >= |answer| && r[|r| - |answer|..] == answer
    ensures current == [] ==> r == answer
    ensures current != [] ==> |r| == |current| + 2 + |answer| && r[|current|..|current| + 2] == "\n\n"
  {
    if current != [] then current + "\n\n" + answer else answer
  }

  class Panel {
    var show: bool
    var loading: bool
    var prompt: string
    var result: string

    constructor ()
      ensures !show && !loading && prompt == [] && result == []
    {
      show := false;
      loading := false;
      prompt := [];
      result := [];
    }

    /** `toggleAiPanel`: closing the panel also clears it. */
    method Toggle()
      modifies this
      ensures show == !old(show) && loading == old(loading)
      ensures show ==> prompt == old(prompt) && result == old(result)
      ensures !show ==> prompt == [] && result == []
    {
      show := !show;
      if !show {
        Clear();
      }
    }

    /** `handleAiAssist`: a blank instruction sends nothing; otherwise the
        untrimmed instruction is sent with the current content, the panel
        shows the outcome and the request is no longer running. */
    method HandleAiAssist(currentContent: string, outcome: Outcome) returns (sent: Option<AssistRequest>)
      modifies this
      ensures show == old(show) && prompt == old(prompt)
      ensures IsBlank(old(prompt)) ==> sent == None && loading == old(loading) && result == old(result)
      ensures !IsBlank(old(prompt)) ==>
        sent == Some(AssistRequest(old(prompt), currentContent)) && !loading && result == Shown(outcome)
    {
      if IsBlank(prompt) {
        return None;
      }
      loading := true;
      sent := Some(AssistRequest(prompt, currentContent));
      result := Shown(outcome);
      loading := false;
    }

    /** `applyAiResult`: hands out the answer and clears the panel. */
    method ApplyAiResult() returns (r: string)
      modifies this
      ensures r == old(result)
      ensures result == [] && prompt == [] && show == old(show) && loading == old(loading)
    {
      r := result;
      Clear();
    }

    /** `appendAiResult`: hands out the content with the answer appended and
        clears the panel. */
    method AppendAiResult(currentContent: string) returns (r: string)
      modifies this
      ensures r == Appended(currentContent, old(result))
      ensures result == [] && prompt == [] && show == old(show) && loading == old(loading)
    {
      r := Appended(currentContent, result);
      Clear();
    }

    /** `clearAiResult`. */
    method Clear()
      modifies this
      ensures result == [] && prompt == [] && show == old(show) && loading == old(loading)
    {
      result := [];
      prompt := [];
    }

    /** `resetAiPanel`. */
    method Reset()
      modifies this
      ensures !show && !loading && prompt == [] && result == []
    {
      show := false;
      loading := false;
      prompt := [];
      result := [];
    }
  }
}
