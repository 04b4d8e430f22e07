/** The reply generator of `modules/ai_model.py`: which model answers, what
    message list the OpenAI-compatible chat API receives, what comes back for
    each way the call can end, and how the per-contact conversation history
    is kept. The HTTP exchange itself is an input (`ApiOutcome`). */
module AiModel {
  import opened PyStr

  /** One entry `{"role": …, "content": …}` of the chat API's message list. */
  datatype ChatTurn = ChatTurn(role: string, content: string)

  const DefaultSystemPrompt := "你是一个有用的助手"
  const DefaultContextLength := 5
  /** Returned when neither the question model nor the default model is set. */
  const ModelConfigError := "抱歉，模型配置错误，无法回复。"
  /** Returned without calling the API when the key or the URL is missing. */
  const ApiConfigIncomplete := "抱歉，API 配置不完整。"
  const BadFormatReply := "抱歉，从API获取回复时出错 (格式错误)。"
  const TimeoutReply := "抱歉，连接AI服务超时。"
  const RequestErrorReply := "抱歉，连接AI服务时出错。"
  const ParseErrorReply := "抱歉，处理AI服务响应时出错。"
  /** The word every failure reply above contains. */
  const Apology := "抱歉"

  /** How the HTTP exchange with the chat API ended. */
  datatype ApiOutcome =
    | Choice(content: string)   // a response whose `choices` list is non-empty
    | NoChoices                 // a response without choices
    | TimedOut                  // `requests.exceptions.Timeout`
    | RequestFailed             // any other `requests.exceptions.RequestException`
    | Unparseable               // any other exception while reading the response

  /** The request the API would be sent: the model and the message list. */
  datatype ApiRequest = ApiRequest(model: string, messages: seq<ChatTurn>)

  /** The `ai_model` section of the configuration; `None` is a missing key. */
  datatype AiConfig = AiConfig(
    apiKey: Option<string>,
    apiUrl: Option<string>,
    contextLength: Option<int>,
    contactPrompts: Option<map<string, string>>,
    systemPrompt: Option<string>,
    questionModelName: Option<string>,
    modelName: Option<string>,
    questionKeywords: Option<seq<string>>)

  /** One keyword test of `_is_question`: the keyword `?` only as the last
      character, any other keyword as a substring. */
  predicate KeywordHits(keyword: string, lowered: string) {
    if keyword == "?" then EndsWith(lowered, "?") else Contains(lowered, keyword)
  }

  /** The early-return scan of `_is_question` over the keywords, in order. */
  function QuestionScan(keywords: seq<string>, lowered: string): (b: bool)
    ensures b <==> exists i :: 0 <= i < |keywords| && KeywordHits(keywords[i], lowered)
  {
    if keywords == [] then false
    else if KeywordHits(keywords[0], lowered) then true
    else
      var b := QuestionScan(keywords[1..], lowered);
      assert forall i :: 1 <= i < |keywords| ==> keywords[i] == keywords[1..][i - 1];
      b
  }

  /** With `?` as the only keyword, a message is a question exactly when it
      ends with `?`; a `?` anywhere else does not count. */
  lemma QuestionMarkOnlyAsSuffix(message: string)
    ensures QuestionScan(["?"], Lower(message)) <==> EndsWith(message, "?")
  {
    var l := Lower(message);
    if EndsWith(message, "?") {
      assert l[|l| - 1] == LowerChar(message[|message| - 1]);
      assert l[|l| - 1..] == "?";
    }
    if EndsWith(l, "?") {
      assert l[|l| - 1..][0] == l[|l| - 1];
      assert message[|message| - 1..] == "?";
    }
  }

  /** The keyword `?` ignores a question mark in the middle of a message. */
  lemma QuestionMarkInsideIgnored()
    ensures !QuestionScan(["?"], Lower("a?b"))
  {
    QuestionMarkOnlyAsSuffix("a?b");
    assert "a?b"[2..] == "b";
  }

  /** A keyword with an ASCII capital letter (other than `?`) never marks a
      question, since it is searched for in the lowered message. */
  lemma CapitalKeywordNeverHits(message: string, keyword: string, j: nat)
    requires j < |keyword| && 'A' <= keyword[j] <= 'Z'
    ensures !KeywordHits(keyword, Lower(message))
  {
    CapitalNeverInLower(message, keyword, j);
  }

  /** `history[-n:]` done as the source writes it: the slice runs only when
      the list is longer than `n = context_length * 2`, and `[-0:]` is the
      whole list. */
  function TrimHistoryAsWritten(history: seq<ChatTurn>, contextLength: int): (r: seq<ChatTurn>)
    ensures |r| <= |history|
    ensures contextLength >= 1 ==> |r| <= 2 * contextLength
    ensures r == history[|history| - |r|..]
  {
    var maxItems := contextLength * 2;
    if |history| > maxItems then SliceFrom(history, -maxItems) else history
  }

  /** With `context_length` 0 the source keeps an unbounded history. */
  lemma TrimAsWrittenKeepsAllAtZero(history: seq<ChatTurn>)
    ensures TrimHistoryAsWritten(history, 0) == history
  {
  }

  /** A concrete history that `context_length` 0 fails to drop. */
  lemma TrimAsWrittenCounterexample()
    ensures |TrimHistoryAsWritten([ChatTurn("user", "hi"), ChatTurn("assistant", "hello")], 0)| == 2
  {
    TrimAsWrittenKeepsAllAtZero([ChatTurn("user", "hi"), ChatTurn("assistant", "hello")]);
  }

  /** The largest history kept: `context_length` user/assistant pairs, and
      none for a length of zero or below. */
  function MaxHistoryItems(contextLength: int): (n: nat)
    ensures contextLength >= 0 ==> n == 2 * contextLength
    ensures contextLength < 0 ==> n == 0
  {
    if contextLength > 0 then 2 * contextLength else 0
  }

  /** The history window as intended: the most recent `MaxHistoryItems`
      entries. */
  function TrimHistory(history: seq<ChatTurn>, contextLength: int): (r: seq<ChatTurn>)
    ensures |r| == if |history| <= MaxHistoryItems(contextLength) then |history| else MaxHistoryItems(contextLength)
    ensures r == history[|history| - |r|..]
  {
    var n := MaxHistoryItems(contextLength);
    if |history| > n then history[|history| - n..] else history
  }

  /** For every positive `context_length` the source's trimming is the
      intended one; the two differ only at zero and below. */
  lemma {:induction false} TrimAgreesWhenPositive(history: seq<ChatTurn>, contextLength: int)
    requires contextLength >= 1
    ensures TrimHistoryAsWritten(history, contextLength) == TrimHistory(history, contextLength)
  {
    var n := 2 * contextLength;
    if |history| > n {
      assert SliceFrom(history, -n) == history[|history| - n..];
    }
  }

  /** The role of the `i`-th entry of a well-kept history: user and assistant
      turns alternate, starting with the user. */
  function RoleAt(i: nat): (role: string)
    ensures role == "user" <==> i % 2 == 0
  {
    if i % 2 == 0 then "user" else "assistant"
  }

  /** A history made of user/assistant pairs, oldest first. */
  ghost predicate WellPaired(h: seq<ChatTurn>) {
    && |h| % 2 == 0
    && forall i :: 0 <= i < |h| ==> h[i].role == RoleAt(i)
  }

  /** Appending one user/assistant exchange keeps a history paired. */
  lemma {:induction false} AppendExchangePaired(h: seq<ChatTurn>, message: string, reply: string)
    requires WellPaired(h)
    ensures WellPaired(h + [ChatTurn("user", message), ChatTurn("assistant", reply)])
  {
    var g := h + [ChatTurn("user", message), ChatTurn("assistant", reply)];
    assert RoleAt(|h|) == "user" && RoleAt(|h| + 1) == "assistant";
    forall i | 0 <= i < |g| ensures g[i].role == RoleAt(i) {
      if i < |h| {
        assert g[i] == h[i];
      }
    }
  }

  /** Dropping an even number of entries from the front keeps a history paired. */
  lemma {:induction false} EvenSuffixPaired(g: seq<ChatTurn>, d: nat)
    requires WellPaired(g) && d <= |g| && d % 2 == 0
    ensures WellPaired(g[d..])
  {
    forall i | 0 <= i < |g| - d ensures g[d..][i].role == RoleAt(i) {
      assert g[d..][i] == g[d + i];
      assert RoleAt(d + i) == RoleAt(i);
    }
  }

  /** Appending one exchange to a paired history and trimming it to an even
      window keeps it paired. */
  lemma {:induction false} ExchangeKeepsPaired(h: seq<ChatTurn>, message: string, reply: string, contextLength: int)
    requires WellPaired(h)
    ensures WellPaired(TrimHistory(h + [ChatTurn("user", message), ChatTurn("assistant", reply)], contextLength))
  {
    var g := h + [ChatTurn("user", message), ChatTurn("assistant", reply)];
    AppendExchangePaired(h, message, reply);
    var r := TrimHistory(g, contextLength);
    EvenSuffixPaired(g, |g| - |r|);
  }

  /** The source's trimming keeps a history paired as well: whatever
      `context_length` is, it drops an even number of the oldest entries
      (none at 0, `-2 * context_length` or everything below 0), and for a
      positive length it keeps at most `2 * context_length` entries. */
  lemma {:induction false} ExchangeKeepsPairedAsWritten(h: seq<ChatTurn>, message: string, reply: string,
                                                        contextLength: int)
    requires WellPaired(h)
    ensures WellPaired(TrimHistoryAsWritten(h + [ChatTurn("user", message), ChatTurn("assistant", reply)], contextLength))
  {
    var g := h + [ChatTurn("user", message), ChatTurn("assistant", reply)];
    AppendExchangePaired(h, message, reply);
    var r := TrimHistoryAsWritten(g, contextLength);
    assert |r| % 2 == 0 by {
      var n := contextLength * 2;
      if |g| > n && n != 0 {
        if -n <= |g| && n > 0 {
          assert |r| == n;
        } else if n < 0 && -n <= |g| {
          assert |r| == |g| + n;
        }
      }
    }
    EvenSuffixPaired(g, |g| - |r|);
  }

  /** The reply `_call_openai_api` returns for each way the exchange can end;
      a key or URL that is missing gives the configuration apology without
      any exchange. */
  function ApiReply(apiKey: string, apiUrl: string, outcome: ApiOutcome): (r: string)
    ensures apiKey == "" || apiUrl == "" ==> r == ApiConfigIncomplete
    ensures apiKey != "" && apiUrl != "" && outcome.Choice? ==> r == Strip(outcome.content)
  {
    if apiKey == "" || apiUrl == "" then ApiConfigIncomplete
    else match outcome
      case Choice(content) => Strip(content)
      case NoChoices => BadFormatReply
      case TimedOut => TimeoutReply
      case RequestFailed => RequestErrorReply
      case Unparseable => ParseErrorReply
  }

  /** Every reply that is not a model's answer is a non-empty apology: the
      history keeps such exchanges, and a summary made of one is rejected. */
  lemma FailureRepliesApologise(apiKey: string, apiUrl: string, outcome: ApiOutcome)
    requires apiKey == "" || apiUrl == "" || !outcome.Choice?
    ensures ApiReply(apiKey, apiUrl, outcome) != ""
    ensures Contains(ApiReply(apiKey, apiUrl, outcome), Apology)
  {
    var r := ApiReply(apiKey, apiUrl, outcome);
    StartsWithContains(r, Apology);
  }

  /** The key `__init__` settles on: the `AI_API_KEY` environment variable
      when it is set and non-empty, otherwise the configured `api_key`. */
  function ChooseApiKey(env: Option<string>, configured: Option<string>): (k: string)
    ensures env.Some? && env.value != "" ==> k == env.value
    ensures (env.None? || env.value == "") ==> k == configured.GetOr("")
  {
    if env.Some? && env.value != "" then env.value else configured.GetOr("")
  }

  /** `AIModel`: reply generation over a configuration fixed at construction
      and a history per contact. A model name of `""` stands for `None`;
      the source tests both only for truthiness. */
  class AIModel {
    const apiKey: string
    const apiUrl: string
    const contextLength: int
    const contactPrompts: map<string, string>
    const defaultSystemPrompt: string
    const questionModelName: string
    const defaultModelName: string
    const questionKeywords: seq<string>
    var conversationHistory: map<string, seq<ChatTurn>>

    /** Every stored history is made of whole exchanges, and fits the window
        when `context_length` is positive (at zero the source keeps it all). */
    ghost predicate Valid()
      reads this`conversationHistory
    {
      forall c :: c in conversationHistory ==>
        && WellPaired(conversationHistory[c])
        && (contextLength >= 1 ==> |conversationHistory[c]| <= 2 * contextLength)
    }

    /** `__init__`. A configuration that is not a dict counts as empty
        (`config = None`); `env` is the `AI_API_KEY` environment variable. */
    constructor(config: Option<AiConfig>, env: Option<string>)
      ensures Valid() && conversationHistory == map[]
      ensures config.None? ==>
        && apiKey == ChooseApiKey(env, None) && apiUrl == ""
        && contextLength == DefaultContextLength && contactPrompts == map[]
        && defaultSystemPrompt == DefaultSystemPrompt
        && questionModelName == "" && defaultModelName == "" && questionKeywords == []
      ensures config.Some? ==>
        && apiKey == ChooseApiKey(env, config.value.apiKey)
        && apiUrl == config.value.apiUrl.GetOr("")
        && contextLength == config.value.contextLength.GetOr(DefaultContextLength)
        && contactPrompts == config.value.contactPrompts.GetOr(map[])
        && defaultSystemPrompt == config.value.systemPrompt.GetOr(DefaultSystemPrompt)
        && questionModelName == config.value.questionModelName.GetOr("")
        && defaultModelName == config.value.modelName.GetOr("")
        && questionKeywords == config.value.questionKeywords.GetOr([])
    {
      var cfg := config.GetOr(AiConfig(None, None, None, None, None, None, None, None));
      apiKey := ChooseApiKey(env, cfg.apiKey);
      apiUrl := cfg.apiUrl.GetOr("");
      contextLength := cfg.contextLength.GetOr(DefaultContextLength);
      contactPrompts := cfg.contactPrompts.GetOr(map[]);
      defaultSystemPrompt := cfg.systemPrompt.GetOr(DefaultSystemPrompt);
      questionModelName := cfg.questionModelName.GetOr("");
      defaultModelName := cfg.modelName.GetOr("");
      questionKeywords := cfg.questionKeywords.GetOr([]);
      conversationHistory := map[];
    }

    /** `_is_question`: no keywords means no question. */
    function IsQuestion(message: string): (b: bool)
      ensures questionKeywords == [] ==> !b
      ensures b <==> exists i :: 0 <= i < |questionKeywords| && KeywordHits(questionKeywords[i], Lower(message))
    {
      QuestionScan(questionKeywords, Lower(message))
    }

    /** The model `generate_reply` picks: the question model when it is set
        and the message is a question, otherwise the default model. */
    function ModelFor(message: string): (m: string)
      ensures m == questionModelName || m == defaultModelName
      ensures questionModelName != "" && IsQuestion(message) ==> m == questionModelName
      ensures !IsQuestion(message) ==> m == defaultModelName
      ensures !(questionModelName != "" && IsQuestion(message)) ==> m == defaultModelName
    {
      if questionModelName != "" && IsQuestion(message) then questionModelName else defaultModelName
    }

    /** The system prompt for a contact: its own prompt if configured, else the default. */
    function SystemPrompt(contact: Option<string>): (p: string)
      ensures contact.Some? && contact.value in contactPrompts ==> p == contactPrompts[contact.value]
      ensures !(contact.Some? && contact.value in contactPrompts) ==> p == defaultSystemPrompt
    {
      if contact.Some? && contact.value in contactPrompts then contactPrompts[contact.value] else defaultSystemPrompt
    }

    /** The stored history of a contact, empty when there is none. */
    function History(contact: Option<string>): (h: seq<ChatTurn>)
      reads this`conversationHistory
      ensures contact.Some? && contact.value in conversationHistory ==> h == conversationHistory[contact.value]
      ensures !(contact.Some? && contact.value in conversationHistory) ==> h == []
    {
      if contact.Some? && contact.value in conversationHistory then conversationHistory[contact.value] else []
    }

    /** The message list sent to the API: the system prompt, the history,
        then the new user message. */
    function ApiMessages(message: string, contact: Option<string>): (ms: seq<ChatTurn>)
      reads this`conversationHistory
      ensures |ms| == |History(contact)| + 2
      ensures ms[0] == ChatTurn("system", SystemPrompt(contact))
      ensures ms[1..|ms| - 1] == History(contact)
      ensures ms[|ms| - 1] == ChatTurn("user", message)
    {
      [ChatTurn("system", SystemPrompt(contact))] + History(contact) + [ChatTurn("user", message)]
    }

    /** `generate_reply(message, contact_name)`. `outcome` is how the HTTP
        exchange would end; `request` is what is posted, `None` when nothing
        is. A non-empty reply for a named contact (`contact` truthy) adds the
        exchange to its history and trims it as the source does
        (`TrimHistoryAsWritten`, so `context_length` 0 keeps everything). */
    method GenerateReply(message: string, contact: Option<string>, outcome: ApiOutcome)
      returns (reply: string, request: Option<ApiRequest>)
      requires Valid()
      modifies this`conversationHistory
      ensures Valid()
      ensures var model := ModelFor(message);
        && (model == "" ==>
              reply == ModelConfigError && request == None
              && conversationHistory == old(conversationHistory))
        && (model != "" ==> reply == ApiReply(apiKey, apiUrl, outcome))
        && (model != "" && apiKey != "" && apiUrl != "" <==> request.Some?)
        && (request.Some? ==> request.value == ApiRequest(model, old(ApiMessages(message, contact))))
      ensures ModelFor(message) != "" && reply != "" && contact.Some? && contact.value != "" ==>
        conversationHistory == old(conversationHistory)[contact.value :=
          TrimHistoryAsWritten(old(History(contact)) + [ChatTurn("user", message), ChatTurn("assistant", reply)], contextLength)]
      ensures !(reply != "" && contact.Some? && contact.value != "") ==>
        conversationHistory == old(conversationHistory)
    {
      var model := ModelFor(message);
      if model == "" {
        return ModelConfigError, None;
      }
      var messages := ApiMessages(message, contact);
      if apiKey == "" || apiUrl == "" {
        request := None;
      } else {
        request := Some(ApiRequest(model, messages));
      }
      reply := ApiReply(apiKey, apiUrl, outcome);
      if reply != "" && contact.Some? && contact.value != "" {
        var current := History(contact);
        ExchangeKeepsPairedAsWritten(current, message, reply, contextLength);
        conversationHistory := conversationHistory[contact.value :=
          TrimHistoryAsWritten(current + [ChatTurn("user", message), ChatTurn("assistant", reply)], contextLength)];
      }
    }
  }
}
