/** The /ask request flow (qa_app.py, ask and ask_openai), up to the request sent to the model. */
module QaApp {
  import opened Wrappers
  import opened Strings
  import opened MemberContext
  import opened Prompt

  /** An HTTPException: a status code and its detail text. */
  datatype HttpError = HttpError(status: nat, detail: string)

  datatype ChatMessage = ChatMessage(role: string, content: string)

  /** The chat-completion request, reduced to its two messages. */
  datatype ChatRequest = ChatRequest(messages: seq<ChatMessage>)

  const EMPTY_QUESTION_DETAIL: string := "Question cannot be empty"
  const UPSTREAM_DETAIL_PREFIX: string := "Upstream messages API error: "
  const AUTH_ERROR: string :=
    "OpenAI API key not configured. Set OPENAI_API_KEY in your environment or .env file."

  /** The handler's first step: strip the question and refuse it with 400 when nothing is left. */
  function ValidateQuestion(question: Option<string>): (r: Result<string, HttpError>)
    ensures var raw := question.GetOr("");
      r.Ok? <==> exists k :: 0 <= k < |raw| && !IsSpace(raw[k])
    ensures r.Ok? ==> r.value == Strip(question.GetOr("")) && r.value != []
    ensures r.Err? ==> r.error == HttpError(400, EMPTY_QUESTION_DETAIL)
  {
    var q := Strip(question.GetOr(""));
    StripEmptyIff(question.GetOr(""));
    if q == [] then Err(HttpError(400, EMPTY_QUESTION_DETAIL)) else Ok(q)
  }

  /** An absent or empty API key counts as not configured (Python's `not key`). */
  predicate KeyConfigured(apiKey: Option<string>) {
    apiKey.Some? && apiKey.value != []
  }

  /** ask_openai up to the model call: the key check, then the system and user messages. */
  function ChatRequestFor(question: string, context: string, apiKey: Option<string>)
    : (r: Result<ChatRequest, HttpError>)
    ensures r.Err? <==> !KeyConfigured(apiKey)
    ensures r.Err? ==> r.error == HttpError(500, AUTH_ERROR)
    ensures r.Ok? ==> |r.value.messages| == 2
    ensures r.Ok? ==> r.value.messages[0] == ChatMessage("system", SYSTEM_INSTRUCTION)
    ensures r.Ok? ==> r.value.messages[1] == ChatMessage("user", UserMessage(context, question))
    ensures r.Ok? ==> OccursAt(context, r.value.messages[1].content, |CONTEXT_LABEL|)
    ensures r.Ok? ==> OccursAt(question, r.value.messages[1].content, QuestionOffset(|context|))
  {
    if !KeyConfigured(apiKey) then Err(HttpError(500, AUTH_ERROR))
    else Ok(ChatRequest([
      ChatMessage("system", SYSTEM_INSTRUCTION),
      ChatMessage("user", UserMessage(context, question))]))
  }

  /**
   * Stand-in for the messages feed behind fetch_messages_data: it answers every fetch with
   * `response` (the parsed JSON, or the text of the HTTP error) and counts the fetches.
   */
  class MessagesFeed {
    const response: Result<MessagesJson, string>
    var fetches: nat

    constructor (response: Result<MessagesJson, string>)
      ensures this.response == response && fetches == 0
    {
      this.response := response;
      fetches := 0;
    }

    /** fetch_messages_data: an HTTP error becomes a 502 with the error's text in the detail. */
    method Fetch() returns (r: Result<MessagesJson, HttpError>)
      modifies this
      ensures fetches == old(fetches) + 1
      ensures response.Ok? ==> r == Ok(response.value)
      ensures response.Err? ==> r == Err(HttpError(502, UPSTREAM_DETAIL_PREFIX + response.error))
    {
      fetches := fetches + 1;
      match response
      case Ok(data) => r := Ok(data);
      case Err(e) => r := Err(HttpError(502, UPSTREAM_DETAIL_PREFIX + e));
    }
  }

  /**
   * The /ask handler: validate, fetch, build the context, build the model request.
   * A rejected question is answered before the feed is touched.
   */
  method Ask(question: Option<string>, feed: MessagesFeed, apiKey: Option<string>)
    returns (r: Result<ChatRequest, HttpError>)
    modifies feed
    ensures ValidateQuestion(question).Err? ==>
      r == Err(HttpError(400, EMPTY_QUESTION_DETAIL)) && feed.fetches == old(feed.fetches)
    ensures ValidateQuestion(question).Ok? ==> feed.fetches == old(feed.fetches) + 1
    ensures ValidateQuestion(question).Ok? && feed.response.Err? ==>
      r == Err(HttpError(502, UPSTREAM_DETAIL_PREFIX + feed.response.error))
    ensures ValidateQuestion(question).Ok? && feed.response.Ok? ==>
      r == ChatRequestFor(ValidateQuestion(question).value, ContextOf(feed.response.value), apiKey)
  {
    var q := ValidateQuestion(question);
    if q.Err? {
      return Err(q.error);
    }
    var data := feed.Fetch();
    if data.Err? {
      return Err(data.error);
    }
    var context := BuildContext(data.value);
    r := ChatRequestFor(q.value, context, apiKey);
  }
}
