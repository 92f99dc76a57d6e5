/** The chat front end of lambdas/lf0.js and its copy lambdafunctions/lf0.js: the first text of a chat
    event is forwarded to the Lex bot, and the bot's messages are wrapped into the chat envelope. */
module ChatEnvelope {
  import opened Common

  // ---------------------------------------------------------------------------------------------------------
  // The envelope

  datatype ErrorResponse = ErrorResponse(code: int, message: string)

  datatype UnstructuredMessage = UnstructuredMessage(id: string, text: string, timestamp: int)

  /** A chat message; `kind` is the JSON field `type`. */
  datatype Message = Message(kind: string, unstructured: UnstructuredMessage)

  datatype BotResponse = BotResponse(messages: seq<Message>)

  const Unstructured := "unstructured"

  function CreateError(code: int, message: string): (e: ErrorResponse)
    ensures e.code == code && e.message == message
  {
    ErrorResponse(code, message)
  }

  function CreateUnstructuredMessage(id: string, text: string, timestamp: int): (u: UnstructuredMessage)
    ensures u.id == id && u.text == text && u.timestamp == timestamp
  {
    UnstructuredMessage(id, text, timestamp)
  }

  /** `createMessage`, whose `type` defaults to "unstructured". */
  function CreateMessage(u: UnstructuredMessage, kind: string := Unstructured): (m: Message)
    ensures m.kind == kind && m.unstructured == u
  {
    Message(kind, u)
  }

  function CreateBotResponse(messages: seq<Message>): (r: BotResponse)
    ensures r.messages == messages
  {
    BotResponse(messages)
  }

  /** `createSimpleMessage`: the `i`-th text gets the `i`-th `randomUUID()` and `Date.now()` reading. */
  function CreateSimpleMessage(msgs: seq<string>, uuid: nat -> string, clock: nat -> int): (r: BotResponse)
    ensures |r.messages| == |msgs|
  {
    CreateBotResponse(seq(|msgs|, i requires 0 <= i < |msgs| =>
      CreateMessage(CreateUnstructuredMessage(uuid(i), msgs[i], clock(i)))))
  }

  /** The texts an envelope carries, in order. */
  function Texts(r: BotResponse): (ts: seq<string>)
    ensures |ts| == |r.messages|
    ensures forall i :: 0 <= i < |ts| ==> ts[i] == r.messages[i].unstructured.text
  {
    seq(|r.messages|, i requires 0 <= i < |r.messages| => r.messages[i].unstructured.text)
  }

  /** The envelope holds one unstructured wrapper per text, in order, with the id and timestamp read for
      it; so its texts are the texts it was built from. */
  lemma SimpleMessageWrapsEachText(msgs: seq<string>, uuid: nat -> string, clock: nat -> int)
    ensures var r := CreateSimpleMessage(msgs, uuid, clock);
      && |r.messages| == |msgs|
      && (forall i :: 0 <= i < |msgs| ==>
            r.messages[i].kind == Unstructured && r.messages[i].unstructured.text == msgs[i] &&
            r.messages[i].unstructured.id == uuid(i) && r.messages[i].unstructured.timestamp == clock(i))
      && Texts(r) == msgs
  {
    var r := CreateSimpleMessage(msgs, uuid, clock);
    forall i | 0 <= i < |msgs|
      ensures r.messages[i] == Message(Unstructured, UnstructuredMessage(uuid(i), msgs[i], clock(i)))
    {
      var u := CreateUnstructuredMessage(uuid(i), msgs[i], clock(i));
      assert r.messages[i] == CreateMessage(u);
    }
    assert Texts(r) == msgs;
  }

  // ---------------------------------------------------------------------------------------------------------
  // The bot

  /** A message of the bot's answer; only its `content` is used. */
  datatype LexMessage = LexMessage(content: string)

  /** The bot's answer: whether it carries `$metadata`, and its `messages`, which may be absent. */
  datatype LexResponse = LexResponse(hasMetadata: bool, messages: Option<seq<LexMessage>>)

  const DefaultReply := "What can I help you with?"

  /** `parseResponse`; `None` when reading `$metadata.httpStatusCode` throws. An empty `messages` array is
      truthy and gives no texts. */
  function ParseResponse(response: LexResponse): (r: Option<seq<string>>)
    ensures r.None? <==> !response.hasMetadata
    ensures r.Some? && response.messages.Some? ==> |r.value| == |response.messages.value|
  {
    if !response.hasMetadata then None
    else if response.messages.Some? then
      Some(seq(|response.messages.value|, i requires 0 <= i < |response.messages.value| =>
        response.messages.value[i].content))
    else Some([DefaultReply])
  }

  /** With `messages` present the texts are their contents, same length and order; without, the texts are
      exactly the default prompt; and the parse fails only without `$metadata`. */
  lemma ParseResponseContents(response: LexResponse)
    ensures ParseResponse(response).None? <==> !response.hasMetadata
    ensures response.hasMetadata && response.messages.Some? ==>
      var ts := ParseResponse(response).value;
      var ms := response.messages.value;
      |ts| == |ms| && forall i :: 0 <= i < |ms| ==> ts[i] == ms[i].content
    ensures response.hasMetadata && response.messages.None? ==> ParseResponse(response) == Some([DefaultReply])
  {
  }

  /** The `RecognizeTextCommand` parameters. */
  datatype LexRequest = LexRequest(botId: string, botAliasId: string, localeId: string, sessionId: string, text: string)

  const BotId := "GK7NIBALMY"
  const BotAliasId := "AZLT3O977Y"
  const LocaleId := "en_US"
  const SessionId := "testsession"

  /** What sending a request to the bot does: answers, or throws. */
  datatype LexOutcome = Answered(response: LexResponse) | LexError

  // ---------------------------------------------------------------------------------------------------------
  // The handler

  datatype ChatEvent = ChatEvent(messages: seq<Message>)

  /** The request `postToBot` sends, or `None` when the event has no first message to read. */
  function BotRequest(event: ChatEvent): (r: Option<LexRequest>)
    ensures r.Some? <==> |event.messages| > 0
    ensures r.Some? ==> r.value.text == event.messages[0].unstructured.text && r.value.botId == BotId &&
                        r.value.botAliasId == BotAliasId && r.value.localeId == LocaleId &&
                        r.value.sessionId == SessionId
  {
    if |event.messages| == 0 then None
    else Some(LexRequest(BotId, BotAliasId, LocaleId, SessionId, event.messages[0].unstructured.text))
  }

  /** `postToBot`; `None` for every failure it throws. */
  function PostToBot(event: ChatEvent, lex: LexRequest -> LexOutcome): (r: Option<seq<string>>)
    ensures r.Some? <==> |event.messages| > 0 && lex(BotRequest(event).value).Answered? &&
                         lex(BotRequest(event).value).response.hasMetadata
  {
    match BotRequest(event)
    case None => None
    case Some(request) =>
      match lex(request)
      case LexError => None
      case Answered(response) => ParseResponse(response)
  }

  datatype HandlerResult = Reply(response: BotResponse) | Error(error: ErrorResponse)

  const InternalServerError := CreateError(500, "Internal Server Error")

  function Handler(event: ChatEvent, lex: LexRequest -> LexOutcome, uuid: nat -> string, clock: nat -> int)
    : (r: HandlerResult)
    ensures r.Error? <==> PostToBot(event, lex).None?
    ensures r.Error? ==> r.error == InternalServerError
    ensures r.Reply? ==> Texts(r.response) == PostToBot(event, lex).value
  {
    match PostToBot(event, lex)
    case None => Error(InternalServerError)
    case Some(texts) =>
      SimpleMessageWrapsEachText(texts, uuid, clock);
      Reply(CreateSimpleMessage(texts, uuid, clock))
  }

  /** Only the text of the first incoming message reaches the bot, with the fixed bot, alias, locale and
      session; events that agree on it are answered alike. */
  lemma OnlyFirstTextForwarded(event: ChatEvent, other: ChatEvent, lex: LexRequest -> LexOutcome,
                               uuid: nat -> string, clock: nat -> int)
    requires |event.messages| > 0 && |other.messages| > 0
    requires other.messages[0].unstructured.text == event.messages[0].unstructured.text
    ensures BotRequest(event) ==
      Some(LexRequest("GK7NIBALMY", "AZLT3O977Y", "en_US", "testsession", event.messages[0].unstructured.text))
    ensures Handler(other, lex, uuid, clock) == Handler(event, lex, uuid, clock)
  {
  }

  /** The handler answers 500 "Internal Server Error" exactly when the event has no message, the bot call
      throws or the answer lacks `$metadata`; otherwise it wraps the parsed texts, in order. */
  lemma HandlerErrorCases(event: ChatEvent, lex: LexRequest -> LexOutcome, uuid: nat -> string, clock: nat -> int)
    ensures var result := Handler(event, lex, uuid, clock);
      && (result.Error? <==>
            || |event.messages| == 0
            || lex(BotRequest(event).value).LexError?
            || !lex(BotRequest(event).value).response.hasMetadata)
      && (result.Error? ==> result.error == ErrorResponse(500, "Internal Server Error"))
      && (result.Reply? ==> Texts(result.response) == ParseResponse(lex(BotRequest(event).value).response).value)
  {
    var result := Handler(event, lex, uuid, clock);
    if result.Reply? {
      SimpleMessageWrapsEachText(PostToBot(event, lex).value, uuid, clock);
    }
  }

  /** A bot answer without messages is relayed as the single default prompt. */
  lemma NoBotMessagesGivesDefaultPrompt(event: ChatEvent, lex: LexRequest -> LexOutcome,
                                        uuid: nat -> string, clock: nat -> int)
    requires |event.messages| > 0
    requires lex(BotRequest(event).value) == Answered(LexResponse(true, None))
    ensures Handler(event, lex, uuid, clock) ==
      Reply(BotResponse([Message("unstructured", UnstructuredMessage(uuid(0), "What can I help you with?", clock(0)))]))
  {
  }
}
