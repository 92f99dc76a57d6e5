/** The fulfillment worker of lambdafunctions/lf2.js: every search hit is looked up in the catalog and all
    the restaurants found are sent in one numbered e-mail. */
module ListWorker {
  import opened Common
  import opened JsText
  import opened Fulfillment

  // ---------------------------------------------------------------- catalog resolution

  /** The catalog records of the hits that resolve, in hit order; the others are skipped. */
  function Resolved(ids: seq<string>, catalog: string -> CatalogOutcome): (rs: seq<Restaurant>)
    ensures |rs| <= |ids|
  {
    if ids == [] then []
    else
      (match QueryCatalog(catalog(ids[0])) case Some(r) => [r] case None => []) + Resolved(ids[1..], catalog)
  }

  lemma {:induction false} ResolvedAppend(a: seq<string>, b: seq<string>, catalog: string -> CatalogOutcome)
    ensures Resolved(a + b, catalog) == Resolved(a, catalog) + Resolved(b, catalog)
  {
    if a == [] {
      assert a + b == b;
    } else {
      assert (a + b)[1..] == a[1..] + b;
      ResolvedAppend(a[1..], b, catalog);
    }
  }

  /** The suggestion list has at most one restaurant per hit, holds exactly the records that some hit
      resolved to, and keeps the hits' order: the records of an earlier stretch of hits come first. */
  lemma {:induction false} ResolvedFiltersHits(ids: seq<string>, catalog: string -> CatalogOutcome)
    ensures |Resolved(ids, catalog)| <= |ids|
    ensures forall r :: r in Resolved(ids, catalog) <==> exists i :: 0 <= i < |ids| && catalog(ids[i]) == Found(r)
    ensures forall k :: 0 <= k <= |ids| ==>
              Resolved(ids, catalog) == Resolved(ids[..k], catalog) + Resolved(ids[k..], catalog)
    ensures (forall i :: 0 <= i < |ids| ==> catalog(ids[i]).Found?) ==> |Resolved(ids, catalog)| == |ids|
  {
    forall k | 0 <= k <= |ids|
      ensures Resolved(ids, catalog) == Resolved(ids[..k], catalog) + Resolved(ids[k..], catalog)
    {
      assert ids == ids[..k] + ids[k..];
      ResolvedAppend(ids[..k], ids[k..], catalog);
    }
    if ids != [] {
      var tail := ids[1..];
      ResolvedFiltersHits(tail, catalog);
      assert forall i :: 0 < i < |ids| ==> ids[i] == tail[i - 1];
      forall r | r in Resolved(ids, catalog)
        ensures exists i :: 0 <= i < |ids| && catalog(ids[i]) == Found(r)
      {
        if catalog(ids[0]) != Found(r) {
          assert r in Resolved(tail, catalog);
          var i :| 0 <= i < |tail| && catalog(tail[i]) == Found(r);
          assert catalog(ids[i + 1]) == Found(r);
        }
      }
      forall r | exists i :: 0 <= i < |ids| && catalog(ids[i]) == Found(r)
        ensures r in Resolved(ids, catalog)
      {
        var i :| 0 <= i < |ids| && catalog(ids[i]) == Found(r);
        if i > 0 {
          assert catalog(tail[i - 1]) == Found(r);
        }
      }
    }
  }

  // ---------------------------------------------------------------- e-mail bodies

  function Header(attrs: Attributes, formatDate: string -> string): string
  {
    "Hello! Here are my restaurant suggestions for " + attrs.noOfPeople + " people on " +
      formatDate(attrs.date) + " at " + attrs.time + ":\n\n"
  }

  /** The line for the restaurant at (1-based) position `n`. */
  function Line(n: nat, r: Restaurant): string
  {
    NatToString(n) + ". " + r.name + " (" + r.cuisine + "), located at " + r.address + "\n"
  }

  /** The lines for `rs`, numbered from `n`. */
  function Lines(rs: seq<Restaurant>, n: nat): string
  {
    if rs == [] then "" else Line(n, rs[0]) + Lines(rs[1..], n + 1)
  }

  const Footer := "\nEnjoy your dining experience!"

  /** The body `sendMessage` composes. `formatDate` is `formatDate` (`toLocaleDateString`). */
  function SuggestionBody(rs: seq<Restaurant>, attrs: Attributes, formatDate: string -> string): (b: string)
    ensures var h := Header(attrs, formatDate);
      |h| + |Footer| <= |b| && b[..|h|] == h && b[|b| - |Footer|..] == Footer
  {
    Header(attrs, formatDate) + Lines(rs, 1) + Footer
  }

  /** The body `sendError` composes. */
  function FailureBody(attrs: Attributes, formatDate: string -> string): (b: string)
    ensures var p := "Unfortunately, no " + attrs.cuisineType;
      |p| <= |b| && b[..|p|] == p
  {
    "Unfortunately, no " + attrs.cuisineType + " restaurants found in " + attrs.location + " for " +
      attrs.noOfPeople + " people on " + formatDate(attrs.date) + " at " + attrs.time + ". Please try again later."
  }

  lemma {:induction false} LinesAppend(a: seq<Restaurant>, b: seq<Restaurant>, n: nat)
    ensures Lines(a + b, n) == Lines(a, n) + Lines(b, n + |a|)
  {
    if a == [] {
      assert a + b == b;
    } else {
      assert (a + b)[1..] == a[1..] + b;
      LinesAppend(a[1..], b, n + 1);
    }
  }

  lemma LinesSnoc(rs: seq<Restaurant>, i: nat)
    requires i < |rs|
    ensures Lines(rs[..i + 1], 1) == Lines(rs[..i], 1) + Line(i + 1, rs[i])
  {
    assert rs[..i + 1] == rs[..i] + [rs[i]];
    LinesAppend(rs[..i], [rs[i]], 1);
    assert Lines([rs[i]], 1 + i) == Line(i + 1, rs[i]);
  }

  /** Line `k` of the list (counting from 0) is the `k`-th restaurant, numbered `k + 1`, with the lines of
      the restaurants before it in front and those after it behind. */
  lemma SuggestionLinesNumberedFromOne(rs: seq<Restaurant>, k: nat)
    requires k < |rs|
    ensures Lines(rs, 1) == Lines(rs[..k], 1) + Line(k + 1, rs[k]) + Lines(rs[k + 1..], k + 2)
  {
    var before, after := rs[..k], rs[k + 1..];
    assert rs == before + ([rs[k]] + after);
    LinesAppend(before, [rs[k]] + after, 1);
    LinesAppend([rs[k]], after, k + 1);
    assert Lines([rs[k]], k + 1) == Line(k + 1, rs[k]) by {
      assert [rs[k]][1..] == [];
    }
    ConcatAssoc(Lines(before, 1), Line(k + 1, rs[k]), Lines(after, k + 2));
  }

  // ---------------------------------------------------------------- what one message produces

  /** The e-mail `handleOSResponse` sends for the hits of a search. */
  function ResponseEmail(ids: seq<string>, attrs: Attributes, catalog: string -> CatalogOutcome,
                         formatDate: string -> string): (e: Effect)
    ensures !e.Delete? && e.to == attrs.email
    ensures e.SuggestionEmail? <==> |Resolved(ids, catalog)| > 0
    ensures e.SuggestionEmail? ==> e.body == SuggestionBody(Resolved(ids, catalog), attrs, formatDate)
    ensures e.FailureEmail? ==> e.body == FailureBody(attrs, formatDate)
  {
    if |ids| == 0 then FailureEmail(attrs.email, FailureBody(attrs, formatDate))
    else
      var suggestions := Resolved(ids, catalog);
      if |suggestions| > 0 then SuggestionEmail(attrs.email, SuggestionBody(suggestions, attrs, formatDate))
      else FailureEmail(attrs.email, FailureBody(attrs, formatDate))
  }

  /** One pass of the handler's loop: when the search failed, `osResponse.body` throws and the `catch`
      sends the failure e-mail; either way the message is deleted afterwards. */
  function MessageEffects(m: QueueMessage, search: string -> SearchOutcome, catalog: string -> CatalogOutcome,
                          formatDate: string -> string): (es: seq<Effect>)
    ensures |es| == 2 && es[1] == Delete(m.receiptHandle)
    ensures !es[0].Delete? && es[0].to == m.attributes.email
  {
    var attrs := m.attributes;
    var email :=
      match QueryOS(search(attrs.cuisineType))
      case None => FailureEmail(attrs.email, FailureBody(attrs, formatDate))
      case Some(ids) => ResponseEmail(ids, attrs, catalog, formatDate);
    [email, Delete(m.receiptHandle)]
  }

  function BatchEffects(ms: seq<QueueMessage>, search: string -> SearchOutcome,
                        catalog: string -> CatalogOutcome, formatDate: string -> string): (es: seq<Effect>)
    ensures |es| == 2 * |ms|
  {
    if ms == [] then []
    else MessageEffects(ms[0], search, catalog, formatDate) + BatchEffects(ms[1..], search, catalog, formatDate)
  }

  lemma {:induction false} BatchEffectsAppend(a: seq<QueueMessage>, b: seq<QueueMessage>,
                                              search: string -> SearchOutcome, catalog: string -> CatalogOutcome,
                                              formatDate: string -> string)
    ensures BatchEffects(a + b, search, catalog, formatDate) ==
              BatchEffects(a, search, catalog, formatDate) + BatchEffects(b, search, catalog, formatDate)
  {
    if a == [] {
      assert a + b == b;
    } else {
      assert (a + b)[1..] == a[1..] + b;
      BatchEffectsAppend(a[1..], b, search, catalog, formatDate);
    }
  }

  /** Every message gets exactly one e-mail: a suggestion e-mail listing every resolved hit when its search
      succeeded and at least one hit resolved, the failure e-mail otherwise (no hits, a failed search, or
      no hit found in the catalog), always to the requester and always followed by its deletion. */
  lemma MessageOutcome(m: QueueMessage, search: string -> SearchOutcome, catalog: string -> CatalogOutcome,
                       formatDate: string -> string)
    ensures var es := MessageEffects(m, search, catalog, formatDate);
      var o := search(m.attributes.cuisineType);
      && |es| == 2 && es[1] == Delete(m.receiptHandle) && !es[0].Delete? && es[0].to == m.attributes.email
      && (es[0].SuggestionEmail? <==> o.SearchHits? && |Resolved(o.ids, catalog)| > 0)
      && (es[0].SuggestionEmail? ==> es[0].body == SuggestionBody(Resolved(o.ids, catalog), m.attributes, formatDate))
      && (es[0].FailureEmail? ==> es[0].body == FailureBody(m.attributes, formatDate))
  {
    var o := search(m.attributes.cuisineType);
    if o.SearchHits? && |o.ids| == 0 {
      assert Resolved(o.ids, catalog) == [];
    }
  }

  lemma BatchEffectsSnoc(ms: seq<QueueMessage>, i: nat, search: string -> SearchOutcome,
                         catalog: string -> CatalogOutcome, formatDate: string -> string)
    requires i < |ms|
    ensures BatchEffects(ms[..i + 1], search, catalog, formatDate) ==
              BatchEffects(ms[..i], search, catalog, formatDate) + MessageEffects(ms[i], search, catalog, formatDate)
  {
    assert ms[..i + 1] == ms[..i] + [ms[i]];
    BatchEffectsAppend(ms[..i], [ms[i]], search, catalog, formatDate);
    assert [ms[i]][1..] == [];
  }

  lemma BatchEffectsAt(ms: seq<QueueMessage>, i: nat, search: string -> SearchOutcome,
                       catalog: string -> CatalogOutcome, formatDate: string -> string)
    requires i < |ms|
    ensures var es := BatchEffects(ms, search, catalog, formatDate);
      var own := MessageEffects(ms[i], search, catalog, formatDate);
      |es| == 2 * |ms| && es[2 * i] == own[0] && es[2 * i + 1] == own[1]
  {
    var before, after := ms[..i], ms[i + 1..];
    assert ms == before + ([ms[i]] + after);
    BatchEffectsAppend(before, [ms[i]] + after, search, catalog, formatDate);
    BatchEffectsAppend([ms[i]], after, search, catalog, formatDate);
    assert BatchEffects([ms[i]], search, catalog, formatDate) == MessageEffects(ms[i], search, catalog, formatDate) by {
      assert [ms[i]][1..] == [];
    }
  }

  lemma {:induction false} BatchDeletes(ms: seq<QueueMessage>, search: string -> SearchOutcome,
                                        catalog: string -> CatalogOutcome, formatDate: string -> string)
    ensures Deletes(BatchEffects(ms, search, catalog, formatDate)) == Receipts(ms)
  {
    if ms != [] {
      var head := MessageEffects(ms[0], search, catalog, formatDate);
      var rest := BatchEffects(ms[1..], search, catalog, formatDate);
      BatchDeletes(ms[1..], search, catalog, formatDate);
      DeletesAppend(head, rest);
      assert Deletes(head) == [ms[0].receiptHandle] by {
        assert head[1..][1..] == [];
      }
      assert Receipts(ms) == [ms[0].receiptHandle] + Receipts(ms[1..]);
    }
  }

  /** A batch produces, for each polled message in poll order, its e-mail and then its deletion; so every
      polled message is deleted, once, in poll order, and exactly one e-mail is sent per message. */
  lemma BatchDeletesEveryMessage(ms: seq<QueueMessage>, search: string -> SearchOutcome,
                                 catalog: string -> CatalogOutcome, formatDate: string -> string)
    ensures var es := BatchEffects(ms, search, catalog, formatDate);
      && |es| == 2 * |ms|
      && (forall i :: 0 <= i < |ms| ==> !es[2 * i].Delete? && es[2 * i].to == ms[i].attributes.email)
      && (forall i :: 0 <= i < |ms| ==> es[2 * i + 1] == Delete(ms[i].receiptHandle))
      && Deletes(es) == Receipts(ms)
  {
    var es := BatchEffects(ms, search, catalog, formatDate);
    if ms == [] {
      assert es == [];
    }
    forall i | 0 <= i < |ms|
      ensures |es| == 2 * |ms|
      ensures !es[2 * i].Delete? && es[2 * i].to == ms[i].attributes.email
      ensures es[2 * i + 1] == Delete(ms[i].receiptHandle)
    {
      BatchEffectsAt(ms, i, search, catalog, formatDate);
      MessageOutcome(ms[i], search, catalog, formatDate);
    }
    BatchDeletes(ms, search, catalog, formatDate);
  }

  // ---------------------------------------------------------------- the worker

  class Worker {
    /** Everything the worker has done so far, in order. */
    var effects: seq<Effect>

    constructor ()
      ensures effects == []
    {
      effects := [];
    }

    /** `sendMessage`: builds the numbered list line by line and hands it to the mail service. */
    method SendMessage(rs: seq<Restaurant>, attrs: Attributes, formatDate: string -> string)
      modifies this
      ensures effects == old(effects) + [SuggestionEmail(attrs.email, SuggestionBody(rs, attrs, formatDate))]
    {
      var header := Header(attrs, formatDate);
      var message := header;
      var i := 0;
      while i < |rs|
        invariant 0 <= i <= |rs|
        invariant message == header + Lines(rs[..i], 1)
        invariant effects == old(effects)
      {
        LinesSnoc(rs, i);
        ConcatAssoc(header, Lines(rs[..i], 1), Line(i + 1, rs[i]));
        message := message + Line(i + 1, rs[i]);
        i := i + 1;
      }
      assert rs[..i] == rs;
      message := message + Footer;
      effects := effects + [SuggestionEmail(attrs.email, message)];
    }

    /** `sendError`. */
    method SendError(attrs: Attributes, formatDate: string -> string)
      modifies this
      ensures effects == old(effects) + [FailureEmail(attrs.email, FailureBody(attrs, formatDate))]
    {
      effects := effects + [FailureEmail(attrs.email, FailureBody(attrs, formatDate))];
    }

    /** `handleOSResponse`: no hits sends the failure e-mail; otherwise each hit is looked up in turn and
        the restaurants found are sent, or the failure e-mail when none is. */
    method HandleOSResponse(ids: seq<string>, attrs: Attributes, catalog: string -> CatalogOutcome,
                            formatDate: string -> string)
      modifies this
      ensures effects == old(effects) + [ResponseEmail(ids, attrs, catalog, formatDate)]
    {
      if |ids| == 0 {
        SendError(attrs, formatDate);
        return;
      }
      var suggestions: seq<Restaurant> := [];
      var i := 0;
      while i < |ids|
        invariant 0 <= i <= |ids|
        invariant suggestions == Resolved(ids[..i], catalog)
        invariant effects == old(effects)
      {
        var suggestion := QueryCatalog(catalog(ids[i]));
        assert ids[..i + 1] == ids[..i] + [ids[i]];
        ResolvedAppend(ids[..i], [ids[i]], catalog);
        if suggestion.Some? {
          suggestions := suggestions + [suggestion.value];
        }
        i := i + 1;
      }
      assert ids[..i] == ids;
      if |suggestions| > 0 {
        assert ResponseEmail(ids, attrs, catalog, formatDate) ==
          SuggestionEmail(attrs.email, SuggestionBody(suggestions, attrs, formatDate));
        SendMessage(suggestions, attrs, formatDate);
      } else {
        SendError(attrs, formatDate);
      }
    }

    /** `deleteSQSMessage`; a failed deletion is logged and swallowed. */
    method DeleteSQSMessage(m: QueueMessage)
      modifies this
      ensures effects == old(effects) + [Delete(m.receiptHandle)]
    {
      effects := effects + [Delete(m.receiptHandle)];
    }

    /** One pass of the handler's loop: search (a failed search makes `osResponse.body` throw, and the
        `catch` sends the failure e-mail), then delete the message. */
    method ProcessMessage(message: QueueMessage, search: string -> SearchOutcome, catalog: string -> CatalogOutcome,
                          formatDate: string -> string)
      modifies this
      ensures effects == old(effects) + MessageEffects(message, search, catalog, formatDate)
    {
      var attributes := message.attributes;
      var osResponse := QueryOS(search(attributes.cuisineType));
      if osResponse.None? {
        SendError(attributes, formatDate);
      } else {
        HandleOSResponse(osResponse.value, attributes, catalog, formatDate);
      }
      DeleteSQSMessage(message);
    }

    /** `handler`: polls once and processes the messages in poll order. */
    method Handler(poll: PollOutcome, search: string -> SearchOutcome, catalog: string -> CatalogOutcome,
                   formatDate: string -> string)
      modifies this
      ensures effects == old(effects) + BatchEffects(PollMessages(poll), search, catalog, formatDate)
    {
      var messages := PollMessages(poll);
      if |messages| == 0 {
        return;
      }
      var i := 0;
      while i < |messages|
        invariant 0 <= i <= |messages|
        invariant effects == old(effects) + BatchEffects(messages[..i], search, catalog, formatDate)
      {
        ProcessMessage(messages[i], search, catalog, formatDate);
        BatchEffectsSnoc(messages, i, search, catalog, formatDate);
        ConcatAssoc(old(effects), BatchEffects(messages[..i], search, catalog, formatDate),
                    MessageEffects(messages[i], search, catalog, formatDate));
        i := i + 1;
      }
      assert messages[..i] == messages;
    }
  }

  /** The three-hit scenario: when the middle hit is missing from the catalog, the suggestion e-mail lists
      exactly the first and the third restaurant, in that order. */
  lemma TwoOfThreeHitsResolved(m: QueueMessage, search: string -> SearchOutcome, catalog: string -> CatalogOutcome,
                               formatDate: string -> string, a: string, b: string, c: string, ra: Restaurant, rc: Restaurant)
    requires search(m.attributes.cuisineType) == SearchHits([a, b, c])
    requires catalog(a) == Found(ra) && catalog(b) == NotFound && catalog(c) == Found(rc)
    ensures MessageEffects(m, search, catalog, formatDate) ==
      [SuggestionEmail(m.attributes.email, SuggestionBody([ra, rc], m.attributes, formatDate)), Delete(m.receiptHandle)]
  {
    assert [a, b, c][1..] == [b, c] && [b, c][1..] == [c] && [c][1..] == [];
    assert Resolved([c], catalog) == [rc];
    assert Resolved([b, c], catalog) == [rc];
    assert Resolved([a, b, c], catalog) == [ra, rc];
  }

  /** An empty poll, or one that failed, leaves no trace at all. */
  lemma EmptyPollDoesNothing(poll: PollOutcome, search: string -> SearchOutcome, catalog: string -> CatalogOutcome,
                             formatDate: string -> string)
    requires poll.PollError? || poll == Received(None) || poll == Received(Some([]))
    ensures BatchEffects(PollMessages(poll), search, catalog, formatDate) == []
  {
  }
}
