/**
 * `Chain` (chains.py): the Groq chat model configured once from the
 * `GROQ_API_KEY` secret, and the two calls made through it: extracting the
 * job postings from a careers page, and writing the cold email for one job.
 * The chat model, its constructor and the JSON output parser are foreign
 * code; they appear here as function parameters.
 */
module Chains {
  import opened Wrappers
  import opened Exceptions
  import opened Json
  import opened Secrets

  const KeyName: string := "GROQ_API_KEY"
  const ModelName: string := "llama-3.3-70b-versatile"
  const Temperature: int := 0
  const MissingKeyMessage: string :=
    "GROQ_API_KEY not set. Add it in Streamlit Secrets or as an environment variable."
  const MalformedMessage: string := "Context too big or malformed model output."

  /** The keyword the API key is passed under: `api_key=` or `groq_api_key=`. */
  datatype Keyword = ApiKey | GroqApiKey

  /** The arguments of one `ChatGroq(...)` call. */
  datatype ChatGroqCall = ChatGroqCall(keyword: Keyword, apiKey: string, modelName: string, temperature: int)

  function CallWith(keyword: Keyword, apiKey: string): ChatGroqCall {
    ChatGroqCall(keyword, apiKey, ModelName, Temperature)
  }

  /** The variables each prompt template is filled with. */
  datatype Prompt =
    | ExtractPrompt(pageData: string)
    | EmailPrompt(jobDescription: string, linkList: seq<string>)

  /** What the chat model answers: its `content` when the answer has one,
      and the answer's `str()`. */
  datatype Reply = Reply(content: Option<string>, text: string)

  /** What reaches the JSON parser: the reply's content, or the reply object
      itself when it has no `content`. */
  datatype ParserInput = Content(s: string) | WholeReply(reply: Reply)

  /** The chat model behind a chain, as the arguments it was built with. */
  datatype Chain = Chain(llm: ChatGroqCall)
  {
    /** `extract_jobs(cleaned_text)`: ask the model for the job postings as
        JSON, parse the answer, and return it as a list. */
    function ExtractJobs(
      cleanedText: string,
      invoke: (ChatGroqCall, Prompt) -> Result<Reply, PyError>,
      parse: ParserInput -> Result<Json, PyError>
    ): (r: Result<seq<Json>, PyError>)
      ensures invoke(llm, ExtractPrompt(cleanedText)).Err? ==> r == Err(invoke(llm, ExtractPrompt(cleanedText)).error)
      ensures invoke(llm, ExtractPrompt(cleanedText)).Ok? ==>
        var reply := invoke(llm, ExtractPrompt(cleanedText)).value;
        var parsed := parse(ParserInputOf(reply));
        && (parsed.Err? && parsed.error.OutputParserException? ==> r == Err(OutputParserException(MalformedMessage)))
        && (parsed.Err? && !parsed.error.OutputParserException? ==> r == Err(parsed.error))
        && (parsed.Ok? && parsed.value.JArr? ==> r == Ok(parsed.value.items))
        && (parsed.Ok? && !parsed.value.JArr? ==> r == Ok([parsed.value]))
    {
      match invoke(llm, ExtractPrompt(cleanedText))
      case Err(e) => Err(e)
      case Ok(reply) =>
        match parse(ParserInputOf(reply))
        case Err(OutputParserException(_)) => Err(OutputParserException(MalformedMessage))
        case Err(e) => Err(e)
        case Ok(JArr(items)) => Ok(items)
        case Ok(v) => Ok([v])
    }

    /** `write_mail(job, links)`: ask the model for the email, sending the
        job as its `str()` and the links as they are, and return the reply's
        text. */
    function WriteMail(
      job: seq<Member>,
      links: seq<string>,
      invoke: (ChatGroqCall, Prompt) -> Result<Reply, PyError>,
      showContainer: Json -> string
    ): (r: Result<string, PyError>)
      ensures var answer := invoke(llm, EmailPrompt(ToStr(JObj(job), showContainer), links));
        && (answer.Err? ==> r == Err(answer.error))
        && (answer.Ok? && answer.value.content.Some? ==> r == Ok(answer.value.content.value))
        && (answer.Ok? && answer.value.content.None? ==> r == Ok(answer.value.text))
    {
      match invoke(llm, EmailPrompt(ToStr(JObj(job), showContainer), links))
      case Err(e) => Err(e)
      case Ok(reply) => Ok(UnwrapReply(reply))
    }
  }

  /** `getattr(res, "content", res)` */
  function ParserInputOf(reply: Reply): (p: ParserInput)
    ensures p.Content? <==> reply.content.Some?
    ensures p.Content? ==> p.s == reply.content.value
    ensures p.WholeReply? ==> p.reply == reply
  {
    match reply.content
    case Some(c) => Content(c)
    case None => WholeReply(reply)
  }

  /** `getattr(res, "content", str(res))` */
  function UnwrapReply(reply: Reply): (s: string)
    ensures reply.content.Some? ==> s == reply.content.value
    ensures reply.content.None? ==> s == reply.text
  {
    reply.content.GetOr(reply.text)
  }

  /** `Chain()`: resolve the key, refuse to start without one, then build the
      model with `api_key=`, retrying once with `groq_api_key=` when that
      keyword raises `TypeError`. `connect` says how each `ChatGroq(...)` call
      ends: `None` when it builds the model, `Some(e)` when it raises `e`.
      `tried` lists the calls made, in order. */
  method NewChain(host: Host, env: map<string, string>, connect: ChatGroqCall -> Option<PyError>)
    returns (r: Result<Chain, PyError>, tried: seq<ChatGroqCall>)
    ensures !Truthy(SecretFor(host, env, KeyName)) ==> r == Err(ValueError(MissingKeyMessage)) && tried == []
    ensures Truthy(SecretFor(host, env, KeyName)) ==>
      var key := SecretFor(host, env, KeyName).value;
      && 1 <= |tried| <= 2
      && tried[0] == CallWith(ApiKey, key)
      && (|tried| == 2 <==> connect(tried[0]).Some? && connect(tried[0]).value.TypeError?)
      && (|tried| == 2 ==> tried[1] == CallWith(GroqApiKey, key))
      && (r.Ok? <==> connect(tried[|tried| - 1]).None?)
      && (r.Ok? ==> r.value.llm == tried[|tried| - 1])
      && (r.Err? ==> r.error == connect(tried[|tried| - 1]).value)
  {
    var apiKey := GetSecret(host, env, KeyName);
    if !Truthy(apiKey) {
      return Err(ValueError(MissingKeyMessage)), [];
    }
    var first := CallWith(ApiKey, apiKey.value);
    tried := [first];
    var llm := first;
    var outcome := connect(first);
    if outcome.Some? && outcome.value.TypeError? {
      llm := CallWith(GroqApiKey, apiKey.value);
      tried := tried + [llm];
      outcome := connect(llm);
    }
    if outcome.Some? {
      r := Err(outcome.value);
    } else {
      r := Ok(Chain(llm));
    }
  }

  /** Extraction comes back empty only when the model's JSON is an empty
      list: any other parsed value yields at least one job. */
  lemma NoJobsOnlyFromEmptyList(
    chain: Chain,
    cleanedText: string,
    invoke: (ChatGroqCall, Prompt) -> Result<Reply, PyError>,
    parse: ParserInput -> Result<Json, PyError>)
    ensures chain.ExtractJobs(cleanedText, invoke, parse) == Ok([])
        <==> invoke(chain.llm, ExtractPrompt(cleanedText)).Ok?
             && parse(ParserInputOf(invoke(chain.llm, ExtractPrompt(cleanedText)).value)) == Ok(JArr([]))
  {
  }
}
