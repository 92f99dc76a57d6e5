/** The dialogue code hook of lambdas/lf1.js: response builders, the dining-turn handler, the queue
    submission and the intent dispatch. */
module DiningTurn {
  import opened Common
  import opened JsText
  import opened DiningValidation

  // ---------------------------------------------------------------- responses

  datatype IntentState = InProgress | Fulfilled

  datatype DialogAction = ElicitSlot(slotToElicit: string) | Close

  /** A dialogue response; every message is a `PlainText` message with this content. `slots` is `None` in
      a `Close` response, which carries no slots. */
  datatype Response = Response(
    sessionAttributes: map<string, string>,
    intentName: string,
    slots: Option<Slots>,
    state: IntentState,
    dialogAction: DialogAction,
    messages: seq<string>)

  /** `elicitSlot`. */
  function ElicitSlotResponse(sessionAttributes: map<string, string>, intentName: string, slots: Slots,
                              slotToElicit: string, message: string): (r: Response)
    ensures r.dialogAction == ElicitSlot(slotToElicit) && r.state == InProgress && r.slots == Some(slots)
    ensures r.messages == [message] && r.sessionAttributes == sessionAttributes && r.intentName == intentName
  {
    Response(sessionAttributes, intentName, Some(slots), InProgress, ElicitSlot(slotToElicit), [message])
  }

  /** `close`. */
  function CloseResponse(sessionAttributes: map<string, string>, fulfillmentState: IntentState,
                         message: string, intentName: string): (r: Response)
    ensures r.dialogAction == Close && r.state == fulfillmentState && r.slots.None?
    ensures r.messages == [message] && r.sessionAttributes == sessionAttributes && r.intentName == intentName
  {
    Response(sessionAttributes, intentName, None, fulfillmentState, Close, [message])
  }

  const GreetingMessage := "Hi there, how can I help you?"
  const AllSetMessage := "Thanks, you're all set! You should receive suggestions soon."

  // ---------------------------------------------------------------- the queue message

  /** One SQS message attribute; a `StringValue` of `undefined` is `None`. */
  datatype MessageAttribute = MessageAttribute(dataType: string, stringValue: Option<string>)

  datatype Submission = Submission(attributes: map<string, MessageAttribute>, body: string)

  /** `slots.key.value.interpretedValue`, no fallback to the original text. */
  function Interpreted(slots: Slots, key: string): Option<string>
  {
    match ValueOf(slots, key)
    case None => None
    case Some(v) => v.interpretedValue
  }

  /** How a template literal renders a possibly-undefined string. */
  function Show(o: Option<string>): string
  {
    match o
    case None => "undefined"
    case Some(s) => s
  }

  /** The parameters `sendMessage` hands to the queue. */
  function BuildSubmission(slots: Slots): (m: Submission)
    ensures m.attributes.Keys == {"Location", "CuisineType", "NoOfPeople", "Date", "Time", "Email"}
    ensures forall f: Field :: Key(f) in m.attributes && m.attributes[Key(f)].stringValue == Interpreted(slots, Key(f))
    ensures forall f: Field :: m.attributes[Key(f)].dataType == if f == NoOfPeople then "Number" else "String"
  {
    Submission(
      map[
        "Location" := MessageAttribute("String", Interpreted(slots, "Location")),
        "CuisineType" := MessageAttribute("String", Interpreted(slots, "CuisineType")),
        "NoOfPeople" := MessageAttribute("Number", Interpreted(slots, "NoOfPeople")),
        "Date" := MessageAttribute("String", Interpreted(slots, "Date")),
        "Time" := MessageAttribute("String", Interpreted(slots, "Time")),
        "Email" := MessageAttribute("String", Interpreted(slots, "Email"))],
      "Reservation request for " + Show(Interpreted(slots, "CuisineType")) + " in " +
        Show(Interpreted(slots, "Location")))
  }

  /** The submitted attributes are the interpreted values alone: the original text never reaches the queue. */
  lemma SubmissionIgnoresOriginalText(s1: Slots, s2: Slots)
    requires forall f: Field :: Interpreted(s1, Key(f)) == Interpreted(s2, Key(f))
    ensures BuildSubmission(s1) == BuildSubmission(s2)
  {
    assert Interpreted(s1, Key(Location)) == Interpreted(s2, Key(Location));
    assert Interpreted(s1, Key(CuisineType)) == Interpreted(s2, Key(CuisineType));
    assert Interpreted(s1, Key(NoOfPeople)) == Interpreted(s2, Key(NoOfPeople));
    assert Interpreted(s1, Key(Date)) == Interpreted(s2, Key(Date));
    assert Interpreted(s1, Key(Time)) == Interpreted(s2, Key(Time));
    assert Interpreted(s1, Key(Email)) == Interpreted(s2, Key(Email));
  }

  /** When every slot of a valid request carries an interpreted value, the submission carries exactly the
      values the validator accepted. */
  lemma ValidSubmissionCarriesValidatedValues(slots: Slots, isDate: string -> bool)
    requires ValidateDining(slots, isDate).Valid?
    requires forall f: Field :: ValueOf(slots, Key(f)).Some? ==> Truthy(ValueOf(slots, Key(f)).value.interpretedValue)
    ensures forall f: Field :: BuildSubmission(slots).attributes[Key(f)].stringValue == Resolve(slots, Key(f))
    ensures var v := BuildSubmission(slots).attributes["Location"].stringValue; v.Some? && Lower(v.value) in Cities
    ensures var v := BuildSubmission(slots).attributes["CuisineType"].stringValue; v.Some? && Lower(v.value) in Cuisines
    ensures var v := BuildSubmission(slots).attributes["Email"].stringValue; v.Some? && EmailShape(v.value)
  {
    ValidMeansEveryFieldAccepted(slots, isDate);
    var m := BuildSubmission(slots);
    forall f: Field ensures m.attributes[Key(f)].stringValue == Resolve(slots, Key(f)) {
      match f
      case Location =>
      case CuisineType =>
      case NoOfPeople => assert SafeInt(Resolve(slots, "NoOfPeople")).Some?;
      case Date =>
      case Time =>
      case Email =>
    }
    assert m.attributes["Location"].stringValue == Resolve(slots, Key(Location));
    assert m.attributes["CuisineType"].stringValue == Resolve(slots, Key(CuisineType));
    assert m.attributes["Email"].stringValue == Resolve(slots, Key(Email));
  }

  /** The reservation queue: the messages it has accepted, in order. */
  class SubmissionQueue {
    var sent: seq<Submission>

    constructor ()
      ensures sent == []
    {
      sent := [];
    }

    /** `sqs.send(new SendMessageCommand(params))`; `accepted` is what the queue service answers. A refused
        message is not recorded and the error is rethrown. */
    method Send(m: Submission, accepted: bool) returns (r: Result<(), TurnError>)
      modifies this
      ensures r.Success? <==> accepted
      ensures r.Failure? ==> r.error == QueueSendFailed
      ensures sent == if accepted then old(sent) + [m] else old(sent)
    {
      if accepted {
        sent := sent + [m];
        r := Success(());
      } else {
        r := Failure(QueueSendFailed);
      }
    }
  }

  // ---------------------------------------------------------------- the turn

  /** The errors a turn throws to the dialogue service. */
  datatype TurnError = QueueSendFailed | IntentNotSupported(intentName: string)

  /** The incoming event; the handler writes into its `slots` object. */
  class IntentRequest {
    const intentName: string
    const sessionAttributes: Option<map<string, string>>
    var slots: Slots

    constructor (intentName: string, sessionAttributes: Option<map<string, string>>, slots: Slots)
      ensures this.intentName == intentName && this.sessionAttributes == sessionAttributes
      ensures this.slots == slots
    {
      this.intentName := intentName;
      this.sessionAttributes := sessionAttributes;
      this.slots := slots;
    }
  }

  /** `intentRequest.sessionState.sessionAttributes || {}`. */
  function AttributesOrEmpty(a: Option<map<string, string>>): (m: map<string, string>)
    ensures a.None? ==> m == map[]
    ensures a.Some? ==> m == a.value
  {
    match a
    case None => map[]
    case Some(m) => m
  }

  /** `handleGreet`. */
  function HandleGreet(intentName: string): (r: Response)
    ensures r.dialogAction == Close && r.state == Fulfilled && r.sessionAttributes == map[]
    ensures r.intentName == intentName && r.messages == [GreetingMessage] && r.slots.None?
  {
    CloseResponse(map[], Fulfilled, GreetingMessage, intentName)
  }

  /** What one dining turn does, given the slots and queue contents before and after it: an invalid turn
      sets the violated slot to `null`, leaves every other slot as it was, sends nothing and asks for that
      slot with the validator's prompt; a valid turn sends exactly one queue message built from the slots
      and closes as fulfilled, and when the queue refuses it the error propagates and no response is
      produced. */
  ghost predicate DiningTurn(before: Slots, after: Slots, sentBefore: seq<Submission>, sentAfter: seq<Submission>,
                             attrs: map<string, string>, intentName: string, isDate: string -> bool,
                             accepted: bool, r: Result<Response, TurnError>)
    ensures DiningTurn(before, after, sentBefore, sentAfter, attrs, intentName, isDate, accepted, r) ==>
      && before.Keys <= after.Keys
      && |sentBefore| <= |sentAfter| <= |sentBefore| + 1
      && sentAfter[..|sentBefore|] == sentBefore
      && (r.Success? <==> sentAfter != sentBefore || ValidateDining(before, isDate).Invalid?)
  {
    match ValidateDining(before, isDate)
    case Invalid(f, m) =>
      && after == before[Key(f) := Null]
      && (forall k :: k in before && k != Key(f) ==> k in after && after[k] == before[k])
      && sentAfter == sentBefore
      && r == Success(ElicitSlotResponse(attrs, intentName, after, Key(f), m))
    case Valid =>
      && after == before
      && sentAfter == (if accepted then sentBefore + [BuildSubmission(before)] else sentBefore)
      && r == (if accepted then Success(CloseResponse(attrs, Fulfilled, AllSetMessage, intentName))
               else Failure(QueueSendFailed))
  }

  /** `handleDiningIntent`. */
  method HandleDiningIntent(req: IntentRequest, queue: SubmissionQueue, isDate: string -> bool, accepted: bool)
    returns (r: Result<Response, TurnError>)
    modifies req, queue
    ensures DiningTurn(old(req.slots), req.slots, old(queue.sent), queue.sent,
                       AttributesOrEmpty(req.sessionAttributes), req.intentName, isDate, accepted, r)
  {
    var attrs := AttributesOrEmpty(req.sessionAttributes);
    var validation := ValidateDining(req.slots, isDate);
    if validation.Invalid? {
      req.slots := req.slots[Key(validation.violatedSlot) := Null];
      return Success(ElicitSlotResponse(attrs, req.intentName, req.slots, Key(validation.violatedSlot),
                                        validation.message));
    }
    var sent := queue.Send(BuildSubmission(req.slots), accepted);
    if sent.Failure? {
      return Failure(sent.error);
    }
    r := Success(CloseResponse(attrs, Fulfilled, AllSetMessage, req.intentName));
  }

  /** `handler`: greetings close at once, dining requests go to the dining handler, any other intent
      throws. */
  method Handler(req: IntentRequest, queue: SubmissionQueue, isDate: string -> bool, accepted: bool)
    returns (r: Result<Response, TurnError>)
    modifies req, queue
    ensures req.intentName == "GreetingIntent" ==>
      r == Success(HandleGreet(req.intentName)) && req.slots == old(req.slots) && queue.sent == old(queue.sent)
    ensures req.intentName == "DiningSuggestionsIntent" ==>
      DiningTurn(old(req.slots), req.slots, old(queue.sent), queue.sent,
                 AttributesOrEmpty(req.sessionAttributes), req.intentName, isDate, accepted, r)
    ensures req.intentName != "GreetingIntent" && req.intentName != "DiningSuggestionsIntent" ==>
      r == Failure(IntentNotSupported(req.intentName)) && req.slots == old(req.slots) && queue.sent == old(queue.sent)
  {
    if req.intentName == "GreetingIntent" {
      r := Success(HandleGreet(req.intentName));
    } else if req.intentName == "DiningSuggestionsIntent" {
      r := HandleDiningIntent(req, queue, isDate, accepted);
    } else {
      r := Failure(IntentNotSupported(req.intentName));
    }
  }

  /** A turn never queues a request the validator rejected, queues at most one message, and answers
      "all set" only when its message was queued. */
  lemma DiningTurnQueuesOnlyValidRequests(before: Slots, after: Slots, sentBefore: seq<Submission>,
                                          sentAfter: seq<Submission>, attrs: map<string, string>,
                                          intentName: string, isDate: string -> bool, accepted: bool,
                                          r: Result<Response, TurnError>)
    requires DiningTurn(before, after, sentBefore, sentAfter, attrs, intentName, isDate, accepted, r)
    ensures |sentAfter| > |sentBefore| ==> ValidateDining(before, isDate).Valid?
    ensures |sentAfter| <= |sentBefore| + 1 && sentAfter[..|sentBefore|] == sentBefore
    ensures r.Success? && r.value.dialogAction == Close <==> |sentAfter| == |sentBefore| + 1
    ensures r.Success? && r.value.dialogAction == Close ==> sentAfter[|sentBefore|] == BuildSubmission(before)
    ensures r.Failure? ==> r.error == QueueSendFailed && after == before
  {
  }

  /** After an invalid turn the request's slots, validated again, ask for the same slot as missing. */
  lemma InvalidTurnReElicitsSameSlot(before: Slots, after: Slots, sentBefore: seq<Submission>,
                                     sentAfter: seq<Submission>, attrs: map<string, string>,
                                     intentName: string, isDate: string -> bool, accepted: bool,
                                     r: Result<Response, TurnError>)
    requires DiningTurn(before, after, sentBefore, sentAfter, attrs, intentName, isDate, accepted, r)
    requires ValidateDining(before, isDate).Invalid?
    ensures var f := ValidateDining(before, isDate).violatedSlot;
      && r.Success? && r.value.dialogAction == ElicitSlot(Key(f)) && r.value.state == InProgress
      && r.value.sessionAttributes == attrs
      && ValidateDining(after, isDate) == Invalid(f, MissingPrompt(f))
  {
    ClearedSlotIsReElicited(before, isDate);
  }
}
