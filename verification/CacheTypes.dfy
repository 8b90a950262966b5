/** The cache's own chat formats, their JSON form, and the exact-match key. */
module CacheTypes {
  import opened Options

  datatype Message = Message(role: string, content: string, name: string)

  datatype Choice = Choice(index: int, message: Message, finishReason: string)

  datatype Usage = Usage(promptTokens: int, completionTokens: int, totalTokens: int)

  datatype ChatResponse = ChatResponse(
    id: string, obj: string, created: int, model: string, choices: seq<Choice>, usage: Usage)

  /** Stands for the hash of the model, the messages and the sampling parameters; taken to be collision-free. */
  datatype CacheKey = CacheKey(
    model: string, messages: seq<Message>, temperature: real, maxTokens: int, topP: real, stop: seq<string>)

  // ---------- JSON ----------

  datatype Json =
    | Null
    | Number(n: int)
    | Text(s: string)
    | Array(items: seq<Json>)
    | Object(fields: map<string, Json>)

  /** A field that is absent or null leaves the zero value; one of the wrong type is an error. */
  function TextField(fields: map<string, Json>, name: string): Option<string> {
    if name !in fields || fields[name].Null? then Some("")
    else if fields[name].Text? then Some(fields[name].s)
    else None
  }

  function NumberField(fields: map<string, Json>, name: string): Option<int> {
    if name !in fields || fields[name].Null? then Some(0)
    else if fields[name].Number? then Some(fields[name].n)
    else None
  }

  function ObjectField(fields: map<string, Json>, name: string): Option<map<string, Json>> {
    if name !in fields || fields[name].Null? then Some(map[])
    else if fields[name].Object? then Some(fields[name].fields)
    else None
  }

  function ArrayField(fields: map<string, Json>, name: string): Option<seq<Json>> {
    if name !in fields || fields[name].Null? then Some([])
    else if fields[name].Array? then Some(fields[name].items)
    else None
  }

  function EncodeMessage(message: Message): Json {
    var fields := map["role" := Text(message.role), "content" := Text(message.content)];
    Object(if message.name == "" then fields else fields["name" := Text(message.name)])
  }

  function DecodeMessage(fields: map<string, Json>): Option<Message> {
    var role, content, name := TextField(fields, "role"), TextField(fields, "content"), TextField(fields, "name");
    if role.Some? && content.Some? && name.Some? then Some(Message(role.value, content.value, name.value)) else None
  }

  function EncodeChoice(choice: Choice): Json {
    Object(map["index" := Number(choice.index), "message" := EncodeMessage(choice.message),
               "finish_reason" := Text(choice.finishReason)])
  }

  function DecodeChoice(fields: map<string, Json>): Option<Choice> {
    var index, reason := NumberField(fields, "index"), TextField(fields, "finish_reason");
    var inner := ObjectField(fields, "message");
    if index.None? || reason.None? || inner.None? then None
    else
      var message := DecodeMessage(inner.value);
      if message.None? then None else Some(Choice(index.value, message.value, reason.value))
  }

  function EncodeChoices(choices: seq<Choice>): seq<Json> {
    if choices == [] then [] else [EncodeChoice(choices[0])] + EncodeChoices(choices[1..])
  }

  function DecodeChoices(items: seq<Json>): Option<seq<Choice>> {
    if items == [] then Some([])
    else if !items[0].Object? && !items[0].Null? then None
    else
      var first := DecodeChoice(if items[0].Object? then items[0].fields else map[]);
      var rest := DecodeChoices(items[1..]);
      if first.Some? && rest.Some? then Some([first.value] + rest.value) else None
  }

  function EncodeUsage(usage: Usage): Json {
    Object(map["prompt_tokens" := Number(usage.promptTokens), "completion_tokens" := Number(usage.completionTokens),
               "total_tokens" := Number(usage.totalTokens)])
  }

  function DecodeUsage(fields: map<string, Json>): Option<Usage> {
    var prompt, completion := NumberField(fields, "prompt_tokens"), NumberField(fields, "completion_tokens");
    var total := NumberField(fields, "total_tokens");
    if prompt.Some? && completion.Some? && total.Some? then Some(Usage(prompt.value, completion.value, total.value))
    else None
  }

  function EncodeResponse(response: ChatResponse): Json {
    Object(map["id" := Text(response.id), "object" := Text(response.obj), "created" := Number(response.created),
               "model" := Text(response.model), "choices" := Array(EncodeChoices(response.choices)),
               "usage" := EncodeUsage(response.usage)])
  }

  function DecodeFields(fields: map<string, Json>): Option<ChatResponse> {
    var id, obj, model := TextField(fields, "id"), TextField(fields, "object"), TextField(fields, "model");
    var created := NumberField(fields, "created");
    var items, inner := ArrayField(fields, "choices"), ObjectField(fields, "usage");
    if id.None? || obj.None? || model.None? || created.None? || items.None? || inner.None? then None
    else
      var choices, usage := DecodeChoices(items.value), DecodeUsage(inner.value);
      if choices.None? || usage.None? then None
      else Some(ChatResponse(id.value, obj.value, created.value, model.value, choices.value, usage.value))
  }

  function DecodeResponse(data: Json): Option<ChatResponse> {
    if data.Null? then Some(ChatResponse("", "", 0, "", [], Usage(0, 0, 0)))
    else if data.Object? then DecodeFields(data.fields)
    else None
  }

  lemma MessageRoundTrip(message: Message)
    ensures DecodeMessage(EncodeMessage(message).fields) == Some(message)
  {
  }

  lemma {:induction false} ChoicesRoundTrip(choices: seq<Choice>)
    ensures DecodeChoices(EncodeChoices(choices)) == Some(choices)
  {
    if choices != [] {
      var first := choices[0];
      MessageRoundTrip(first.message);
      assert DecodeChoice(EncodeChoice(first).fields) == Some(first);
      ChoicesRoundTrip(choices[1..]);
      assert EncodeChoices(choices)[0] == EncodeChoice(first);
      assert EncodeChoices(choices)[1..] == EncodeChoices(choices[1..]);
      assert choices == [first] + choices[1..];
    }
  }

  lemma UsageRoundTrip(usage: Usage)
    ensures DecodeUsage(EncodeUsage(usage).fields) == Some(usage)
  {
  }

  /** What each field of an encoded response holds. */
  lemma FieldsAreEncoded(response: ChatResponse)
    ensures
      var fields := EncodeResponse(response).fields;
      && TextField(fields, "id") == Some(response.id) && TextField(fields, "object") == Some(response.obj)
      && TextField(fields, "model") == Some(response.model) && NumberField(fields, "created") == Some(response.created)
      && ArrayField(fields, "choices") == Some(EncodeChoices(response.choices))
      && ObjectField(fields, "usage") == Some(EncodeUsage(response.usage).fields)
  {
  }

  /** The fields inside choices, messages and the usage; a message without a name has no field for it. */
  lemma InnerFieldsAreEncoded(choice: Choice, usage: Usage)
    ensures
      var fields := EncodeChoice(choice).fields;
      && fields.Keys == {"index", "message", "finish_reason"} && fields["index"] == Number(choice.index)
      && fields["finish_reason"] == Text(choice.finishReason)
      && var message := fields["message"].fields;
      && message.Keys == {"role", "content"} + (if choice.message.name == "" then {} else {"name"})
      && message["role"] == Text(choice.message.role) && message["content"] == Text(choice.message.content)
      && (choice.message.name != "" ==> message["name"] == Text(choice.message.name))
    ensures
      var fields := EncodeUsage(usage).fields;
      && fields.Keys == {"prompt_tokens", "completion_tokens", "total_tokens"}
      && fields["prompt_tokens"] == Number(usage.promptTokens)
      && fields["completion_tokens"] == Number(usage.completionTokens)
      && fields["total_tokens"] == Number(usage.totalTokens)
  {
  }

  /** Missing and null fields leave zero values; a value that is no object, or a field of a wrong type, is an error. */
  lemma DecodingDefaults(fields: map<string, Json>)
    ensures DecodeResponse(Null) == Some(ChatResponse("", "", 0, "", [], Usage(0, 0, 0)))
    ensures DecodeResponse(Object(map[])) == Some(ChatResponse("", "", 0, "", [], Usage(0, 0, 0)))
    ensures DecodeResponse(Number(0)) == DecodeResponse(Text("")) == DecodeResponse(Array([])) == None
    ensures "id" in fields && fields["id"].Number? ==> DecodeResponse(Object(fields)) == None
    ensures "created" in fields && fields["created"].Text? ==> DecodeResponse(Object(fields)) == None
    ensures "choices" in fields && fields["choices"].Object? ==> DecodeResponse(Object(fields)) == None
    ensures "usage" in fields && fields["usage"].Array? ==> DecodeResponse(Object(fields)) == None
  {
  }

  lemma DecodedFromFields(fields: map<string, Json>, response: ChatResponse)
    requires TextField(fields, "id") == Some(response.id) && TextField(fields, "object") == Some(response.obj)
    requires TextField(fields, "model") == Some(response.model)
    requires NumberField(fields, "created") == Some(response.created)
    requires ArrayField(fields, "choices") == Some(EncodeChoices(response.choices))
    requires ObjectField(fields, "usage") == Some(EncodeUsage(response.usage).fields)
    ensures DecodeFields(fields) == Some(response)
  {
    ChoicesRoundTrip(response.choices);
    UsageRoundTrip(response.usage);
  }

  /** Decoding an encoded response yields the response. */
  lemma ResponseRoundTrip(response: ChatResponse)
    ensures DecodeResponse(EncodeResponse(response)) == Some(response)
  {
    var fields := EncodeResponse(response).fields;
    FieldsAreEncoded(response);
    DecodedFromFields(fields, response);
  }
}
