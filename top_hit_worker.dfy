/** The fulfillment worker of lambdas/lf2.js: only the top search hit is looked up, and its failure path
    refers to a variable `location` that the file never declares. */
module TopHitWorker {
  import opened Common
  import opened Fulfillment
  import ListWorker

  /** The exception that escapes the handler. */
  datatype Escape = ReferenceError(name: string)

  /** Evaluating the template of `sendError`'s message reads the undeclared `location`. */
  const LocationUndefined := ReferenceError("location")

  /** The single-restaurant body `sendMessage` composes; `toDateString` is `new Date(d).toDateString()`. */
  function SuggestionBody(r: Restaurant, attrs: Attributes, toDateString: string -> string): (b: string)
    ensures var p, q := "Hello! Here are my " + r.cuisine, r.address + ". Enjoy!";
      |p| + |q| <= |b| && b[..|p|] == p && b[|b| - |q|..] == q
  {
    "Hello! Here are my " + r.cuisine + " restaurant suggestions for " + attrs.noOfPeople + " people on " +
      toDateString(attrs.date) + " at " + attrs.time + ": " + r.name + ", located at " + r.address + ". Enjoy!"
  }

  /** `handleOSResponse`: the e-mail it sends, or the error its `sendError` call throws. */
  function ResponseOutcome(ids: seq<string>, attrs: Attributes, catalog: string -> CatalogOutcome,
                           toDateString: string -> string): (o: Result<Effect, Escape>)
    ensures o.Success? <==> |ids| > 0 && catalog(ids[0]).Found?
    ensures o.Success? ==> o.value.SuggestionEmail? && o.value.to == attrs.email
    ensures o.Failure? ==> o.error == LocationUndefined
  {
    if |ids| == 0 then Failure(LocationUndefined)
    else
      match QueryCatalog(catalog(ids[0]))
      case Some(r) => Success(SuggestionEmail(attrs.email, SuggestionBody(r, attrs, toDateString)))
      case None => Failure(LocationUndefined)
  }

  /** One pass of the handler's loop. Whatever reaches the `catch` (the failed search's `null.body`, or the
      error from `handleOSResponse`) calls `sendError` again, which throws again, out of the handler. */
  function MessageOutcome(m: QueueMessage, search: string -> SearchOutcome, catalog: string -> CatalogOutcome,
                          toDateString: string -> string): (o: Result<seq<Effect>, Escape>)
    ensures o.Success? ==> |o.value| == 2 && o.value[0].SuggestionEmail? && o.value[0].to == m.attributes.email &&
                           o.value[1] == Delete(m.receiptHandle)
    ensures o.Failure? ==> o.error == LocationUndefined
  {
    match QueryOS(search(m.attributes.cuisineType))
    case None => Failure(LocationUndefined)
    case Some(ids) =>
      match ResponseOutcome(ids, m.attributes, catalog, toDateString)
      case Success(email) => Success([email, Delete(m.receiptHandle)])
      case Failure(_) => Failure(LocationUndefined)
  }

  /** What a handler run leaves behind: its effects, and the exception that ended it, if any. */
  datatype BatchRun = BatchRun(effects: seq<Effect>, escaped: Option<Escape>)

  function RunBatch(ms: seq<QueueMessage>, search: string -> SearchOutcome, catalog: string -> CatalogOutcome,
                    toDateString: string -> string): (run: BatchRun)
    ensures run.escaped.None? ==> |run.effects| == 2 * |ms|
    ensures run.escaped.Some? ==> run.escaped.value == LocationUndefined
  {
    if ms == [] then BatchRun([], None)
    else
      var o := MessageOutcome(ms[0], search, catalog, toDateString);
      if o.Failure? then BatchRun([], Some(o.error))
      else
        var rest := RunBatch(ms[1..], search, catalog, toDateString);
        BatchRun(o.value + rest.effects, rest.escaped)
  }

  /** The number of leading messages whose search found a top hit that the catalog has. */
  function Served(ms: seq<QueueMessage>, search: string -> SearchOutcome, catalog: string -> CatalogOutcome,
                  toDateString: string -> string): (n: nat)
    ensures n <= |ms|
  {
    if ms == [] || MessageOutcome(ms[0], search, catalog, toDateString).Failure? then 0
    else 1 + Served(ms[1..], search, catalog, toDateString)
  }

  /** Only the top hit counts: its catalog outcome alone decides the result, and the failure path is taken
      exactly when there is no hit or the top one is not in the catalog. */
  lemma TopHitDecides(ids: seq<string>, attrs: Attributes, catalog: string -> CatalogOutcome,
                      other: string -> CatalogOutcome, toDateString: string -> string)
    requires |ids| > 0 ==> other(ids[0]) == catalog(ids[0])
    ensures ResponseOutcome(ids, attrs, catalog, toDateString) == ResponseOutcome(ids, attrs, other, toDateString)
    ensures |ids| > 0 ==> ResponseOutcome(ids, attrs, catalog, toDateString) ==
                            ResponseOutcome([ids[0]], attrs, catalog, toDateString)
    ensures ResponseOutcome(ids, attrs, catalog, toDateString).Success? <==> |ids| > 0 && catalog(ids[0]).Found?
    ensures |ids| > 0 && catalog(ids[0]).Found? ==>
      ResponseOutcome(ids, attrs, catalog, toDateString) ==
        Success(SuggestionEmail(attrs.email, SuggestionBody(catalog(ids[0]).item, attrs, toDateString)))
  {
  }

  /** A message is served, with one suggestion e-mail and then its deletion, exactly when its search
      succeeds with a top hit the catalog has; otherwise it sends nothing and the handler is aborted. */
  lemma MessageServedIffTopHitResolves(m: QueueMessage, search: string -> SearchOutcome,
                                       catalog: string -> CatalogOutcome, toDateString: string -> string)
    ensures var o := search(m.attributes.cuisineType);
      MessageOutcome(m, search, catalog, toDateString).Success? <==>
        o.SearchHits? && |o.ids| > 0 && catalog(o.ids[0]).Found?
    ensures var o := MessageOutcome(m, search, catalog, toDateString);
      o.Success? ==> |o.value| == 2 && o.value[0].SuggestionEmail? && o.value[0].to == m.attributes.email &&
                     o.value[1] == Delete(m.receiptHandle)
    ensures var o := MessageOutcome(m, search, catalog, toDateString);
      o.Failure? ==> o.error == LocationUndefined
  {
  }

  /** A run serves the leading messages that resolve, each with its e-mail and deletion, and stops at the
      first that does not: that message and every later one are never deleted, and the error escapes. */
  lemma BatchStopsAtFirstUnserved(ms: seq<QueueMessage>, search: string -> SearchOutcome,
                                  catalog: string -> CatalogOutcome, toDateString: string -> string)
    ensures var run := RunBatch(ms, search, catalog, toDateString);
      var n := Served(ms, search, catalog, toDateString);
      && |run.effects| == 2 * n
      && Deletes(run.effects) == Receipts(ms[..n])
      && (run.escaped.Some? <==> n < |ms|)
      && (run.escaped.Some? ==> run.escaped.value == LocationUndefined)
  {
    BatchServesPrefix(ms, search, catalog, toDateString);
    BatchDeletesServed(ms, search, catalog, toDateString);
  }

  /** A run leaves two effects per message served, and escapes exactly when a message is left unserved. */
  lemma {:induction false} BatchServesPrefix(ms: seq<QueueMessage>, search: string -> SearchOutcome,
                                             catalog: string -> CatalogOutcome, toDateString: string -> string)
    ensures var run := RunBatch(ms, search, catalog, toDateString);
      var n := Served(ms, search, catalog, toDateString);
      && |run.effects| == 2 * n
      && (run.escaped.Some? <==> n < |ms|)
      && (run.escaped.Some? ==> run.escaped.value == LocationUndefined)
  {
    if ms != [] {
      MessageServedIffTopHitResolves(ms[0], search, catalog, toDateString);
      if MessageOutcome(ms[0], search, catalog, toDateString).Success? {
        BatchServesPrefix(ms[1..], search, catalog, toDateString);
      }
    }
  }

  /** A run deletes exactly the messages it served, in poll order. */
  lemma {:induction false} BatchDeletesServed(ms: seq<QueueMessage>, search: string -> SearchOutcome,
                                              catalog: string -> CatalogOutcome, toDateString: string -> string)
    ensures Deletes(RunBatch(ms, search, catalog, toDateString).effects) ==
              Receipts(ms[..Served(ms, search, catalog, toDateString)])
  {
    if ms != [] {
      var o := MessageOutcome(ms[0], search, catalog, toDateString);
      if o.Success? {
        MessageServedIffTopHitResolves(ms[0], search, catalog, toDateString);
        var rest := RunBatch(ms[1..], search, catalog, toDateString);
        var n := Served(ms[1..], search, catalog, toDateString);
        BatchDeletesServed(ms[1..], search, catalog, toDateString);
        DeletesAppend(o.value, rest.effects);
        DeletesOfServedMessage(o.value[0], ms[0].receiptHandle);
        assert ms[..n + 1] == [ms[0]] + ms[1..][..n];
        ReceiptsCons(ms[0], ms[1..][..n]);
      } else {
        assert ms[..0] == [];
      }
    }
  }

  /** With the first polled message finding no hits, the run sends nothing, deletes nothing (not even the
      later messages) and throws. */
  lemma ZeroHitsFirstDropsWholeBatch(m1: QueueMessage, m2: QueueMessage, search: string -> SearchOutcome,
                                     catalog: string -> CatalogOutcome, toDateString: string -> string)
    requires search(m1.attributes.cuisineType) == SearchHits([])
    ensures RunBatch([m1, m2], search, catalog, toDateString) == BatchRun([], Some(LocationUndefined))
  {
  }

  class Worker {
    /** Everything the worker has done so far, in order. */
    var effects: seq<Effect>

    constructor ()
      ensures effects == []
    {
      effects := [];
    }

    /** `sendMessage`. */
    method SendMessage(r: Restaurant, attrs: Attributes, toDateString: string -> string)
      modifies this
      ensures effects == old(effects) + [SuggestionEmail(attrs.email, SuggestionBody(r, attrs, toDateString))]
    {
      effects := effects + [SuggestionEmail(attrs.email, SuggestionBody(r, attrs, toDateString))];
    }

    /** `sendError`: throws while composing its message, before anything is sent. */
    method SendError(attrs: Attributes) returns (r: Result<(), Escape>)
      ensures r == Failure(LocationUndefined)
    {
      r := Failure(LocationUndefined);
    }

    /** `handleOSResponse`. */
    method HandleOSResponse(ids: seq<string>, attrs: Attributes, catalog: string -> CatalogOutcome,
                            toDateString: string -> string) returns (r: Result<(), Escape>)
      modifies this
      ensures var o := ResponseOutcome(ids, attrs, catalog, toDateString);
        && (r.Success? <==> o.Success?)
        && (o.Success? ==> effects == old(effects) + [o.value])
        && (o.Failure? ==> effects == old(effects) && r.error == o.error)
    {
      if |ids| == 0 {
        r := SendError(attrs);
        return;
      }
      var topId := ids[0];
      var suggestion := QueryCatalog(catalog(topId));
      if suggestion.Some? {
        SendMessage(suggestion.value, attrs, toDateString);
        r := Success(());
      } else {
        r := SendError(attrs);
      }
    }

    /** `deleteSQSMessage`; a failed deletion is logged and swallowed. */
    method DeleteSQSMessage(m: QueueMessage)
      modifies this
      ensures effects == old(effects) + [Delete(m.receiptHandle)]
    {
      effects := effects + [Delete(m.receiptHandle)];
    }

    /** One pass of the handler's loop; a failure is what escapes the `catch` block. */
    method ProcessMessage(message: QueueMessage, search: string -> SearchOutcome, catalog: string -> CatalogOutcome,
                          toDateString: string -> string) returns (r: Result<(), Escape>)
      modifies this
      ensures var o := MessageOutcome(message, search, catalog, toDateString);
        && (r.Success? <==> o.Success?)
        && (o.Success? ==> effects == old(effects) + o.value)
        && (o.Failure? ==> effects == old(effects) && r.error == o.error)
    {
      var attributes := message.attributes;
      var osResponse := QueryOS(search(attributes.cuisineType));
      var outcome: Result<(), Escape>;
      if osResponse.None? {
        outcome := Failure(LocationUndefined);
      } else {
        outcome := HandleOSResponse(osResponse.value, attributes, catalog, toDateString);
      }
      if outcome.Failure? {
        r := SendError(attributes);
        return;
      }
      DeleteSQSMessage(message);
      r := Success(());
    }

    /** `handler`: polls once and processes the messages in poll order until one throws. */
    method Handler(poll: PollOutcome, search: string -> SearchOutcome, catalog: string -> CatalogOutcome,
                   toDateString: string -> string) returns (escaped: Option<Escape>)
      modifies this
      ensures var run := RunBatch(PollMessages(poll), search, catalog, toDateString);
        effects == old(effects) + run.effects && escaped == run.escaped
    {
      var messages := PollMessages(poll);
      if |messages| == 0 {
        return None;
      }
      var i := 0;
      while i < |messages|
        invariant 0 <= i <= |messages|
        invariant var done := RunBatch(messages[..i], search, catalog, toDateString);
          done.escaped.None? && effects == old(effects) + done.effects
      {
        var served := ProcessMessage(messages[i], search, catalog, toDateString);
        if served.Failure? {
          EscapesAt(messages, i, search, catalog, toDateString);
          return Some(served.error);
        }
        ServedAt(messages, i, search, catalog, toDateString);
        i := i + 1;
      }
      assert messages[..i] == messages;
      escaped := None;
    }
  }

  /** A run over two batches, the first of which does not escape, is the runs one after the other. */
  lemma {:induction false} RunBatchSplit(a: seq<QueueMessage>, b: seq<QueueMessage>, search: string -> SearchOutcome,
                                         catalog: string -> CatalogOutcome, toDateString: string -> string)
    requires RunBatch(a, search, catalog, toDateString).escaped.None?
    ensures RunBatch(a + b, search, catalog, toDateString) ==
      var first := RunBatch(a, search, catalog, toDateString);
      var second := RunBatch(b, search, catalog, toDateString);
      BatchRun(first.effects + second.effects, second.escaped)
  {
    if a == [] {
      assert a + b == b;
    } else {
      assert (a + b)[0] == a[0];
      assert (a + b)[1..] == a[1..] + b;
      RunBatchSplit(a[1..], b, search, catalog, toDateString);
      var es := MessageOutcome(a[0], search, catalog, toDateString).value;
      var r1 := RunBatch(a[1..], search, catalog, toDateString).effects;
      var second := RunBatch(b, search, catalog, toDateString);
      assert RunBatch(a + b, search, catalog, toDateString) ==
        BatchRun(es + RunBatch(a[1..] + b, search, catalog, toDateString).effects, second.escaped);
      ConcatAssoc(es, r1, second.effects);
    }
  }

  /** The run over a batch whose first `i` messages were served and whose next one is not. */
  lemma EscapesAt(ms: seq<QueueMessage>, i: nat, search: string -> SearchOutcome,
                  catalog: string -> CatalogOutcome, toDateString: string -> string)
    requires i < |ms|
    requires RunBatch(ms[..i], search, catalog, toDateString).escaped.None?
    requires MessageOutcome(ms[i], search, catalog, toDateString).Failure?
    ensures RunBatch(ms, search, catalog, toDateString) ==
      BatchRun(RunBatch(ms[..i], search, catalog, toDateString).effects,
               Some(MessageOutcome(ms[i], search, catalog, toDateString).error))
  {
    RunBatchSplit(ms[..i], ms[i..], search, catalog, toDateString);
    assert ms[i..][0] == ms[i];
    assert ms[..i] + ms[i..] == ms;
    var first := RunBatch(ms[..i], search, catalog, toDateString).effects;
    assert first + [] == first;
  }

  /** The run over the first `i + 1` messages of a batch, the last of which is served. */
  lemma ServedAt(ms: seq<QueueMessage>, i: nat, search: string -> SearchOutcome,
                 catalog: string -> CatalogOutcome, toDateString: string -> string)
    requires i < |ms|
    requires RunBatch(ms[..i], search, catalog, toDateString).escaped.None?
    requires MessageOutcome(ms[i], search, catalog, toDateString).Success?
    ensures RunBatch(ms[..i + 1], search, catalog, toDateString) ==
      BatchRun(RunBatch(ms[..i], search, catalog, toDateString).effects +
               MessageOutcome(ms[i], search, catalog, toDateString).value, None)
  {
    RunBatchSplit(ms[..i], [ms[i]], search, catalog, toDateString);
    assert [ms[i]][1..] == [];
    assert ms[..i + 1] == ms[..i] + [ms[i]];
    var es := MessageOutcome(ms[i], search, catalog, toDateString).value;
    assert es + [] == es;
  }

  // ---------------------------------------------------------------- the failure path as intended

  /** `sendError` with the request's own location in its text, as lambdafunctions/lf2.js declares it: it
      sends the failure e-mail instead of throwing. */
  function IntendedFailureEmail(attrs: Attributes, toDateString: string -> string): (e: Effect)
    ensures e.FailureEmail? && e.to == attrs.email
    ensures e.body == ListWorker.FailureBody(attrs, toDateString)
  {
    FailureEmail(attrs.email, ListWorker.FailureBody(attrs, toDateString))
  }

  /** One pass of the handler's loop with that `sendError`: the `catch` sends the failure e-mail, and the
      message is deleted either way. */
  function IntendedMessageEffects(m: QueueMessage, search: string -> SearchOutcome, catalog: string -> CatalogOutcome,
                                  toDateString: string -> string): (es: seq<Effect>)
    ensures |es| == 2 && !es[0].Delete? && es[0].to == m.attributes.email && es[1] == Delete(m.receiptHandle)
  {
    var attrs := m.attributes;
    var email :=
      match QueryOS(search(attrs.cuisineType))
      case None => IntendedFailureEmail(attrs, toDateString)
      case Some(ids) =>
        match ResponseOutcome(ids, attrs, catalog, toDateString)
        case Success(e) => e
        case Failure(_) => IntendedFailureEmail(attrs, toDateString);
    [email, Delete(m.receiptHandle)]
  }

  function IntendedBatch(ms: seq<QueueMessage>, search: string -> SearchOutcome, catalog: string -> CatalogOutcome,
                         toDateString: string -> string): (es: seq<Effect>)
    ensures |es| == 2 * |ms|
  {
    if ms == [] then []
    else IntendedMessageEffects(ms[0], search, catalog, toDateString) + IntendedBatch(ms[1..], search, catalog, toDateString)
  }

  /** The intended loop serves a message exactly as the written one does when its top hit resolves, and
      answers every other message with the failure e-mail instead of aborting. */
  lemma IntendedMessageAgreesWhenServed(m: QueueMessage, search: string -> SearchOutcome,
                                        catalog: string -> CatalogOutcome, toDateString: string -> string)
    ensures var o := MessageOutcome(m, search, catalog, toDateString);
      var es := IntendedMessageEffects(m, search, catalog, toDateString);
      && (o.Success? ==> es == o.value)
      && (o.Failure? ==> es == [FailureEmail(m.attributes.email, ListWorker.FailureBody(m.attributes, toDateString)),
                               Delete(m.receiptHandle)])
  {
  }

  /** With the intended `sendError`, every polled message gets one e-mail to its requester and is then
      deleted, in poll order, whatever the search and the catalog answer. */
  lemma IntendedBatchDeletesEveryMessage(ms: seq<QueueMessage>, search: string -> SearchOutcome,
                                         catalog: string -> CatalogOutcome, toDateString: string -> string)
    ensures var es := IntendedBatch(ms, search, catalog, toDateString);
      && |es| == 2 * |ms|
      && (forall i :: 0 <= i < |ms| ==> !es[2 * i].Delete? && es[2 * i].to == ms[i].attributes.email)
      && (forall i :: 0 <= i < |ms| ==> es[2 * i + 1] == Delete(ms[i].receiptHandle))
      && Deletes(es) == Receipts(ms)
  {
    IntendedBatchShape(ms, search, catalog, toDateString);
    IntendedBatchDeletes(ms, search, catalog, toDateString);
  }

  lemma {:induction false} IntendedBatchShape(ms: seq<QueueMessage>, search: string -> SearchOutcome,
                                              catalog: string -> CatalogOutcome, toDateString: string -> string)
    ensures var es := IntendedBatch(ms, search, catalog, toDateString);
      && |es| == 2 * |ms|
      && (forall i :: 0 <= i < |ms| ==> !es[2 * i].Delete? && es[2 * i].to == ms[i].attributes.email)
      && (forall i :: 0 <= i < |ms| ==> es[2 * i + 1] == Delete(ms[i].receiptHandle))
  {
    if ms != [] {
      var head := IntendedMessageEffects(ms[0], search, catalog, toDateString);
      var rest := IntendedBatch(ms[1..], search, catalog, toDateString);
      IntendedBatchShape(ms[1..], search, catalog, toDateString);
      assert IntendedBatch(ms, search, catalog, toDateString) == head + rest;
      MailThenDeleteCons(head, rest, ms);
    }
  }

  /** Prefixing the e-mail and deletion of a first message to effects that pair the rest of a batch. */
  lemma MailThenDeleteCons(head: seq<Effect>, rest: seq<Effect>, ms: seq<QueueMessage>)
    requires ms != []
    requires |head| == 2 && !head[0].Delete? && head[0].to == ms[0].attributes.email
    requires head[1] == Delete(ms[0].receiptHandle)
    requires |rest| == 2 * (|ms| - 1)
    requires forall i :: 0 <= i < |ms| - 1 ==>
      !rest[2 * i].Delete? && rest[2 * i].to == ms[1..][i].attributes.email
    requires forall i :: 0 <= i < |ms| - 1 ==> rest[2 * i + 1] == Delete(ms[1..][i].receiptHandle)
    ensures var es := head + rest;
      && |es| == 2 * |ms|
      && (forall i :: 0 <= i < |ms| ==> !es[2 * i].Delete? && es[2 * i].to == ms[i].attributes.email)
      && (forall i :: 0 <= i < |ms| ==> es[2 * i + 1] == Delete(ms[i].receiptHandle))
  {
    var es := head + rest;
    forall i | 0 < i < |ms|
      ensures !es[2 * i].Delete? && es[2 * i].to == ms[i].attributes.email
      ensures es[2 * i + 1] == Delete(ms[i].receiptHandle)
    {
      var j := i - 1;
      assert es[2 * i] == rest[2 * j] && es[2 * i + 1] == rest[2 * j + 1];
      assert ms[i] == ms[1..][j];
    }
  }

  lemma {:induction false} IntendedBatchDeletes(ms: seq<QueueMessage>, search: string -> SearchOutcome,
                                                catalog: string -> CatalogOutcome, toDateString: string -> string)
    ensures Deletes(IntendedBatch(ms, search, catalog, toDateString)) == Receipts(ms)
  {
    if ms != [] {
      var head := IntendedMessageEffects(ms[0], search, catalog, toDateString);
      var rest := IntendedBatch(ms[1..], search, catalog, toDateString);
      IntendedBatchDeletes(ms[1..], search, catalog, toDateString);
      DeletesAppend(head, rest);
      assert head == [head[0], Delete(ms[0].receiptHandle)];
      DeletesOfServedMessage(head[0], ms[0].receiptHandle);
      ReceiptsCons(ms[0], ms[1..]);
      assert ms == [ms[0]] + ms[1..];
    }
  }

  /** The evident intent on the batch that the written code drops: a first message without hits gets the
      failure e-mail, and both messages are deleted. */
  lemma ZeroHitsFirstIntended(m1: QueueMessage, m2: QueueMessage, search: string -> SearchOutcome,
                              catalog: string -> CatalogOutcome, toDateString: string -> string)
    requires search(m1.attributes.cuisineType) == SearchHits([])
    ensures var es := IntendedBatch([m1, m2], search, catalog, toDateString);
      && es[0] == FailureEmail(m1.attributes.email, ListWorker.FailureBody(m1.attributes, toDateString))
      && Deletes(es) == [m1.receiptHandle, m2.receiptHandle]
  {
    IntendedBatchDeletesEveryMessage([m1, m2], search, catalog, toDateString);
    assert Receipts([m1, m2]) == [m1.receiptHandle, m2.receiptHandle];
  }
}
