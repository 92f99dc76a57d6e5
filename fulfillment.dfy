/** What the two fulfillment workers (lambdafunctions/lf2.js and lambdas/lf2.js) share: the queued request,
    the answers of the queue, search and catalog services, and the trace of effects a worker leaves. */
module Fulfillment {
  import opened Common

  /** The `StringValue`s of a queued request's message attributes. */
  datatype Attributes = Attributes(
    location: string, cuisineType: string, noOfPeople: string, date: string, time: string, email: string)

  datatype QueueMessage = QueueMessage(receiptHandle: string, attributes: Attributes)

  /** What `ReceiveMessageCommand` does: answers with a `Messages` field that may be absent, or throws. */
  datatype PollOutcome = Received(messages: Option<seq<QueueMessage>>) | PollError

  /** `pollSQS`: `data.Messages || []`, and `[]` when the receive throws. */
  function PollMessages(o: PollOutcome): (ms: seq<QueueMessage>)
    ensures o.PollError? ==> ms == []
    ensures o.Received? && o.messages.None? ==> ms == []
    ensures o.Received? && o.messages.Some? ==> ms == o.messages.value
  {
    match o
    case PollError => []
    case Received(None) => []
    case Received(Some(ms)) => ms
  }

  /** What the search index does for a cuisine: answers with the `_id`s of its hits, in rank order, or throws. */
  datatype SearchOutcome = SearchHits(ids: seq<string>) | SearchError

  /** `queryOS`: the response, or `null` when the search throws. */
  function QueryOS(o: SearchOutcome): (r: Option<seq<string>>)
    ensures r.None? <==> o.SearchError?
    ensures o.SearchHits? ==> r == Some(o.ids)
  {
    match o
    case SearchError => None
    case SearchHits(ids) => Some(ids)
  }

  /** The catalog fields the e-mails use. */
  datatype Restaurant = Restaurant(name: string, cuisine: string, address: string)

  /** What `GetCommand` does for an id: finds an item, finds none, or throws. */
  datatype CatalogOutcome = Found(item: Restaurant) | NotFound | LookupError

  /** `queryDynamoDB`: `result.Item`, which is `undefined` when there is no item, and `null` when the
      lookup throws; both are falsy. */
  function QueryCatalog(o: CatalogOutcome): (r: Option<Restaurant>)
    ensures r.Some? <==> o.Found?
    ensures o.Found? ==> r == Some(o.item)
  {
    match o
    case Found(item) => Some(item)
    case NotFound => None
    case LookupError => None
  }

  /** The externally visible effects of a worker, in order: e-mails handed to the mail service (a send that
      fails is logged and swallowed, so the attempt is what counts) and queue deletions. */
  datatype Effect =
    | SuggestionEmail(to: string, body: string)
    | FailureEmail(to: string, body: string)
    | Delete(receiptHandle: string)

  const SuggestionSubject := "Dining Concierge - Restaurant Suggestions"
  const FailureSubject := "Dining Concierge - No Suggestions Found"

  function Subject(e: Effect): string
    requires !e.Delete?
  {
    if e.SuggestionEmail? then SuggestionSubject else FailureSubject
  }

  /** The receipt handles of the deletions in a trace, in order. */
  function Deletes(effects: seq<Effect>): seq<string>
  {
    if effects == [] then []
    else (if effects[0].Delete? then [effects[0].receiptHandle] else []) + Deletes(effects[1..])
  }

  lemma {:induction false} DeletesAppend(a: seq<Effect>, b: seq<Effect>)
    ensures Deletes(a + b) == Deletes(a) + Deletes(b)
  {
    if a == [] {
      assert a + b == b;
    } else {
      assert (a + b)[1..] == a[1..] + b;
      DeletesAppend(a[1..], b);
    }
  }

  function Receipts(ms: seq<QueueMessage>): (rs: seq<string>)
    ensures |rs| == |ms|
    ensures forall i :: 0 <= i < |ms| ==> rs[i] == ms[i].receiptHandle
  {
    seq(|ms|, i requires 0 <= i < |ms| => ms[i].receiptHandle)
  }

  lemma ReceiptsCons(m: QueueMessage, ms: seq<QueueMessage>)
    ensures Receipts([m] + ms) == [m.receiptHandle] + Receipts(ms)
  {
    var l, r := Receipts([m] + ms), [m.receiptHandle] + Receipts(ms);
    forall i | 0 <= i < |l|
      ensures l[i] == r[i]
    {
      if i > 0 {
        assert ([m] + ms)[i] == ms[i - 1];
      }
    }
  }

  /** The trace of one served message, an e-mail and then its deletion, deletes that message only. */
  lemma DeletesOfServedMessage(e: Effect, h: string)
    requires !e.Delete?
    ensures Deletes([e, Delete(h)]) == [h]
  {
    assert [e, Delete(h)][1..] == [Delete(h)] && [Delete(h)][1..] == [];
    assert Deletes([Delete(h)]) == [h] + Deletes([]);
    assert Deletes([e, Delete(h)]) == [] + Deletes([Delete(h)]);
  }
}
