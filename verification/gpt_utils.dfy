/** Model selection and the shape of the completion requests. The
    completion service itself is not modelled: the functions here give the
    request that would be sent. */
module GptUtils {
  import opened Wrappers
  import opened Chat

  /** The two model identifiers, read once from the configuration. */
  datatype GptConfig = GptConfig(defaultModel: string, largeContextModel: string)

  /** Prompt tokens plus max_tokens below this keeps the default model. */
  const TokenThreshold := 3750

  /** The defaults of `get_completion_from_messages`. */
  const DefaultTemperature: real := 0.5
  const DefaultMaxTokens := 1750

  /** The `function_call` value sent whenever functions are offered. */
  const AutoFunctionCall := "auto"

  datatype ModelTier = DefaultTier | LargeContextTier

  /** Token counting returns `None` for a model without a known encoding,
      and adding max_tokens to it then raises a TypeError. */
  datatype SelectError = TokenCountUnavailable

  /** The identifier configured for a tier. */
  function ModelFor(cfg: GptConfig, tier: ModelTier): string
  {
    match tier
    case DefaultTier => cfg.defaultModel
    case LargeContextTier => cfg.largeContextModel
  }

  /** `select_model`, given the prompt's token count. The sum
      `num_tokens + max_tokens` is formed before the `is not None` test, so a
      missing count raises a TypeError and the test never sees `None`: it is
      an error for every max_tokens rather than a fallback to the
      large-context tier. Otherwise the default tier is chosen exactly when
      the total stays below 3750, and a total of 3750 or more chooses the
      large-context tier. */
  function SelectTier(promptTokens: Option<nat>, maxTokens: int): (r: Result<ModelTier, SelectError>)
    ensures r.Failure? <==> promptTokens.None?
    ensures promptTokens.Some? ==> (r == Success(DefaultTier) <==> promptTokens.value + maxTokens < TokenThreshold)
    ensures promptTokens.Some? ==> (r == Success(LargeContextTier) <==> promptTokens.value + maxTokens >= TokenThreshold)
  {
    match promptTokens
    case None => Failure(TokenCountUnavailable)
    case Some(n) => Success(if n + maxTokens < TokenThreshold then DefaultTier else LargeContextTier)
  }

  /** `select_model`: the chosen model identifier, or the error raised. */
  function SelectModel(cfg: GptConfig, promptTokens: Option<nat>, maxTokens: int): (r: Result<string, SelectError>)
    ensures r.Failure? <==> promptTokens.None?
    ensures r.Success? ==> r.value == cfg.defaultModel || r.value == cfg.largeContextModel
  {
    match SelectTier(promptTokens, maxTokens)
    case Failure(e) => Failure(e)
    case Success(tier) => Success(ModelFor(cfg, tier))
  }

  /** More prompt tokens or a larger max_tokens never moves a request from the
      large-context model back to the default one. */
  lemma SelectTierMonotone(n1: nat, m1: int, n2: nat, m2: int)
    requires n1 <= n2 && m1 <= m2
    requires SelectTier(Some(n1), m1) == Success(LargeContextTier)
    ensures SelectTier(Some(n2), m2) == Success(LargeContextTier)
  {
  }

  /** A chat-completion request as handed to the service. Fields that the
      call leaves out are `None`. */
  datatype Request = Request(model: string, messages: seq<Message>, functions: Option<seq<string>>,
                             functionCall: Option<string>, temperature: real, maxTokens: Option<int>)

  /** `get_completion_from_messages`: the request it sends, or the error
      raised while choosing the model. `promptTokens` is the token count of
      the printed message list. */
  function CompletionRequest(cfg: GptConfig, messages: seq<Message>, promptTokens: Option<nat>,
                             functions: seq<string> := [], temperature: real := DefaultTemperature,
                             maxTokens: int := DefaultMaxTokens): (r: Result<Request, SelectError>)
    ensures r.Failure? <==> promptTokens.None?
    ensures r.Success? ==>
              && SelectModel(cfg, promptTokens, maxTokens) == Success(r.value.model)
              && r.value.messages == messages
              && r.value.temperature == temperature
              && r.value.maxTokens == Some(maxTokens)
              && (r.value.functionCall.Some? <==> |functions| > 0)
              && (r.value.functionCall.Some? ==> r.value.functionCall.value == AutoFunctionCall)
              && (r.value.functions.Some? <==> |functions| > 0)
              && (r.value.functions.Some? ==> r.value.functions.value == functions)
  {
    match SelectModel(cfg, promptTokens, maxTokens)
    case Failure(e) => Failure(e)
    case Success(model) =>
      if |functions| > 0 then
        Success(Request(model, messages, Some(functions), Some(AutoFunctionCall), temperature, Some(maxTokens)))
      else
        Success(Request(model, messages, None, None, temperature, Some(maxTokens)))
  }

  /** Called with messages alone, the request offers no functions, uses
      temperature 0.5 and max_tokens 1750, and so keeps the default model
      exactly when the prompt is under 2000 tokens. */
  lemma CompletionRequestDefaults(cfg: GptConfig, messages: seq<Message>, promptTokens: nat)
    ensures var r := CompletionRequest(cfg, messages, Some(promptTokens));
            && r.Success?
            && r.value.functions.None? && r.value.functionCall.None?
            && r.value.temperature == 0.5 && r.value.maxTokens == Some(1750)
            && r.value.model == if promptTokens < 2000 then cfg.defaultModel else cfg.largeContextModel
  {
  }

  /** The fixed system instructions of the three minutes extractors. */
  const AbstractSummaryInstruction := "You are a highly skilled AI trained in language comprehension and summarization. I would like you to read the following text and summarize it into a concise abstract paragraph. Aim to retain the most important points, providing a coherent and readable summary that could help a person understand the main points of the discussion without needing to read the entire text. Please avoid unnecessary details or tangential points."

  const KeyPointsInstruction := "You are a proficient AI with a specialty in distilling information into key points. Based on the following text, identify and list the main points that were discussed or brought up. These should be the most important ideas, findings, or topics that are crucial to the essence of the discussion. Your goal is to provide a list that someone could read to quickly understand what was talked about."

  const ActionItemInstruction := "You are an AI expert in analyzing conversations and extracting action items. Please review the text and identify any tasks, assignments, or actions that were agreed upon or mentioned as needing to be done. These could be tasks assigned to specific individuals, or general actions that the group has decided to take. Please list these action items clearly and concisely."

  /** The request shared by the three minutes extractors: exactly two
      turns, the instruction as system turn and then the transcription
      unchanged as user turn, sent to the large-context model at temperature
      0 whatever the transcription's length, with max_tokens and functions
      left unset. */
  function MinutesRequest(cfg: GptConfig, instruction: string, transcription: string): (r: Request)
    ensures r.model == cfg.largeContextModel && r.temperature == 0.0
    ensures r.messages == [Message(System, instruction), Message(User, transcription)]
    ensures r.maxTokens.None? && r.functions.None? && r.functionCall.None?
  {
    Request(cfg.largeContextModel, [Message(System, instruction), Message(User, transcription)], None, None, 0.0, None)
  }

  /** `abstract_summary_extraction`. */
  function AbstractSummaryRequest(cfg: GptConfig, transcription: string): (r: Request)
    ensures r.model == cfg.largeContextModel && r.temperature == 0.0
    ensures r.messages == [Message(System, AbstractSummaryInstruction), Message(User, transcription)]
  {
    MinutesRequest(cfg, AbstractSummaryInstruction, transcription)
  }

  /** `key_points_extraction`. */
  function KeyPointsRequest(cfg: GptConfig, transcription: string): (r: Request)
    ensures r.model == cfg.largeContextModel && r.temperature == 0.0
    ensures r.messages == [Message(System, KeyPointsInstruction), Message(User, transcription)]
  {
    MinutesRequest(cfg, KeyPointsInstruction, transcription)
  }

  /** `action_item_extraction`. */
  function ActionItemRequest(cfg: GptConfig, transcription: string): (r: Request)
    ensures r.model == cfg.largeContextModel && r.temperature == 0.0
    ensures r.messages == [Message(System, ActionItemInstruction), Message(User, transcription)]
  {
    MinutesRequest(cfg, ActionItemInstruction, transcription)
  }
}
