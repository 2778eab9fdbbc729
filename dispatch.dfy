/**
 * The entry points text-generation-webui calls: `chat_input_modifier`
 * runs the pipeline (extract, fetch, rewrite) on the chat input when the
 * extension is enabled for chats; `input_modifier` hands its prompt back.
 */
module Dispatch {
  import opened Wrappers
  import opened Text
  import opened Urls
  import opened OrderedMaps
  import opened Articles
  import opened Rewriter

  /** The extension's `params` dict. */
  datatype Params = Params(summaryLengthTrigger: int, maxSummarizationLength: int, useFor: string, enableVisible: bool)

  /** The settings used when no settings file exists. */
  const DefaultParams := Params(128, 2048, "Both", true)

  /** `use_for` is one of `"Chats"` and `"Both"`. */
  predicate UsedInChats(params: Params) {
    params.useFor == "Chats" || params.useFor == "Both"
  }

  /** The budget allocation `chat_input_modifier` asks for: the total comes from `max_summarization_length`. */
  function ChatRequest(params: Params, text: string, initialBudget: int, fetch: string -> Page): Request {
    Request(ExtractUrls(text), fetch, params.maxSummarizationLength, initialBudget)
  }

  /**
   * `chat_input_modifier(text, visible_text, state)`: the pair `(text,
   * visible_text)` it returns, or the exception the pipeline raises.
   * `initialBudget` is the starting budget the allocator derives from the
   * total, and `fetch` is what the page library yields for each url.
   */
  function ChatInputModifier(params: Params, text: string, visible: string, initialBudget: int, fetch: string -> Page)
    : (r: Result<(string, string), Error>)
    ensures !UsedInChats(params) ==> r == Ok((text, visible))
    ensures r.Ok? && UsedInChats(params) && params.enableVisible ==> r.value.1 == r.value.0
    ensures r.Ok? && UsedInChats(params) && !params.enableVisible ==> r.value.1 == visible
    ensures r.Err? ==> r.error == BudgetExceeded(params.maxSummarizationLength) || r.error == MissingTextAttribute
  {
    if !UsedInChats(params) then Ok((text, visible))
    else
      match Allocation(ChatRequest(params, text, initialBudget, fetch))
      case Err(e) => Err(e)
      case Ok(articles) =>
        match Rewrite(text, articles)
        case Err(e) => Err(e)
        case Ok(altered) => if params.enableVisible then Ok((altered, altered)) else Ok((altered, visible))
  }

  /**
   * `input_modifier(string, state, is_chat)`: it returns its argument at
   * once, whatever the settings; the rest of its body is never reached.
   */
  function InputModifier(params: Params, s: string, isChat: bool): (r: string)
    ensures r == s
  {
    s
  }

  /**
   * When enabled for chats, the first component is the rewrite of the
   * message under the articles fetched for its urls, and the call raises
   * exactly when the allocator or the rewrite does.
   */
  lemma ChatInputIsRewrite(params: Params, text: string, visible: string, initialBudget: int, fetch: string -> Page)
    requires UsedInChats(params)
    ensures
      var alloc := Allocation(ChatRequest(params, text, initialBudget, fetch));
      var r := ChatInputModifier(params, text, visible, initialBudget, fetch);
      && (r.Err? <==> alloc.Err? || Rewrite(text, alloc.value).Err?)
      && (alloc.Err? ==> r == Err(BudgetExceeded(params.maxSummarizationLength)))
      && (r.Ok? ==> Rewrite(text, alloc.value) == Ok(r.value.0))
  {
  }

  /**
   * A message with no `://` has no urls: nothing is fetched and the pipeline
   * hands the message back, to the model and, when `enable_visible`, to the
   * display.
   */
  lemma NoUrlsPassThrough(params: Params, text: string, visible: string, initialBudget: int, fetch: string -> Page)
    requires Absent(text, "://")
    ensures ChatInputModifier(params, text, visible, initialBudget, fetch) ==
      Ok((text, if UsedInChats(params) && params.enableVisible then text else visible))
  {
    NoSeparatorNoUrls(text);
    var req := ChatRequest(params, text, initialBudget, fetch);
    assert req.urls == [];
    var alloc := Allocation(req);
    assert alloc == Ok(OrderedMap([], map[]));
    RewriteOfEmptyMap(text, alloc.value);
  }

  /**
   * The default settings run the pipeline on chats: both components are the
   * rewrite of the message under the articles fetched for its urls.
   */
  lemma DefaultsRewriteBoth(text: string, visible: string, initialBudget: int, fetch: string -> Page)
    ensures UsedInChats(DefaultParams)
    ensures
      var alloc := Allocation(ChatRequest(DefaultParams, text, initialBudget, fetch));
      var r := ChatInputModifier(DefaultParams, text, visible, initialBudget, fetch);
      && (r.Err? <==> alloc.Err? || Rewrite(text, alloc.value).Err?)
      && (r.Ok? ==> Rewrite(text, alloc.value) == Ok(r.value.0) && r.value.1 == r.value.0)
  {
    ChatInputIsRewrite(DefaultParams, text, visible, initialBudget, fetch);
  }
}
