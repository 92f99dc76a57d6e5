/** The catalog seeder of otherscripts/yelpScraper.js: for each of five cuisines it pages through the Yelp
    business search and inserts every business whose id the table does not have yet, until 50 new ones
    were stored or a page comes back empty. */
module Seeder {
  import opened Common

  /** `numberOfRestaurantsByCuisine`: new entries wanted per cuisine. */
  const NumberOfRestaurantsByCuisine := 50
  /** The `limit` of every search request, and the step of its `offset`. */
  const PageSize := 50
  const DefaultLocation := "Manhattan"
  const Cuisines := ["Chinese", "Indian", "Italian", "Mexican", "Japanese"]

  // ---------------------------------------------------------------------------------------------------------
  // Entries

  datatype Coordinates = Coordinates(latitude: real, longitude: real)

  /** The `location` of a Yelp business; either field may be missing or null. */
  datatype YelpLocation = YelpLocation(address1: Option<string>, zipCode: Option<string>)

  datatype Business = Business(
    id: string, name: string, location: YelpLocation, coordinates: Coordinates, reviewCount: int, rating: real)

  /** An item of the `yelp-restaurants` table. */
  datatype Entry = Entry(
    id: string, name: string, address: string, coordinates: Coordinates, numberOfReviews: int, rating: real,
    zipCode: string, cuisine: string, insertedAtTimestamp: string)

  /** `value || ""`: a missing, null or empty text becomes the empty text. */
  function OrEmpty(o: Option<string>): (s: string)
    ensures o.None? ==> s == ""
    ensures o.Some? ==> s == o.value
  {
    if o.Some? then o.value else ""
  }

  /** `createDynamoEntry`; `now` is the `toISOString()` of the clock at the call. */
  function CreateDynamoEntry(b: Business, cuisine: string, now: string): (e: Entry)
    ensures e.id == b.id && e.name == b.name
    ensures e.cuisine == cuisine
    ensures b.location.address1.None? ==> e.address == ""
    ensures b.location.zipCode.None? ==> e.zipCode == ""
    ensures b.location.address1.Some? ==> e.address == b.location.address1.value
    ensures b.location.zipCode.Some? ==> e.zipCode == b.location.zipCode.value
    ensures e.coordinates == b.coordinates && e.numberOfReviews == b.reviewCount && e.rating == b.rating
    ensures e.insertedAtTimestamp == now
  {
    Entry(b.id, b.name, OrEmpty(b.location.address1), b.coordinates, b.reviewCount, b.rating,
          OrEmpty(b.location.zipCode), cuisine, now)
  }

  // ---------------------------------------------------------------------------------------------------------
  // The conditional put

  type Table = map<string, Entry>

  /** Every item is stored under its own id. */
  ghost predicate Keyed(t: Table)
  {
    forall id :: id in t ==> t[id].id == id
  }

  datatype PutResult = PutResult(table: Table, isNew: bool)

  /** A put with `attribute_not_exists(id)`; `fails` says the put throws for another reason. Either
      failure is caught and reported as a duplicate. */
  function Put(t: Table, e: Entry, fails: bool): (r: PutResult)
    ensures r.isNew <==> e.id !in t && !fails
    ensures forall id :: id in t ==> id in r.table && r.table[id] == t[id]
    ensures !r.isNew ==> r.table == t
    ensures r.isNew ==> e.id in r.table && r.table[e.id] == e
  {
    if e.id in t || fails then PutResult(t, false) else PutResult(t[e.id := e], true)
  }

  /** The put inserts if and only if the id is absent and the put does not fail, never overwrites an item,
      keeps every item under its id, and adds exactly one item when it reports a new one. */
  lemma PutInsertsIfAbsent(t: Table, e: Entry, fails: bool)
    requires Keyed(t)
    ensures var r := Put(t, e, fails);
      && (r.isNew <==> e.id !in t && !fails)
      && Keyed(r.table)
      && (forall id :: id in t ==> id in r.table && r.table[id] == t[id])
      && r.table.Keys == t.Keys + (if r.isNew then {e.id} else {})
      && |r.table| == |t| + (if r.isNew then 1 else 0)
      && (r.isNew ==> r.table[e.id] == e)
  {
    var r := Put(t, e, fails);
    if r.isNew {
      assert r.table.Keys == t.Keys + {e.id};
    }
  }

  /** A second put of the same id never inserts, and leaves the table as the first put left it. */
  lemma PutTwiceInsertsOnce(t: Table, e: Entry, e': Entry, fails: bool, fails': bool)
    requires e'.id == e.id
    requires Put(t, e, fails).isNew
    ensures var first := Put(t, e, fails).table;
      Put(first, e', fails') == PutResult(first, false)
  {
  }

  // ---------------------------------------------------------------------------------------------------------
  // Search pages

  /** What the business search answers for one request: a `businesses` list that may be absent, or an
      error, which `fetchRestaurantsFromYelp` logs and rethrows. */
  datatype FetchOutcome = Page(businesses: Option<seq<Business>>) | FetchError(message: string)

  datatype FetchRequest = FetchRequest(cuisine: string, location: string, offset: nat)

  /** The answers to the requests at offsets 0, 50, 100, ... for one cuisine; past the end every page is
      empty. */
  function PageAt(pages: seq<FetchOutcome>, k: nat): (o: FetchOutcome)
    ensures k >= |pages| ==> o == Page(Some([]))
    ensures k < |pages| ==> o == pages[k]
  {
    if k < |pages| then pages[k] else Page(Some([]))
  }

  /** `response.data.businesses || []`. */
  function Businesses(o: FetchOutcome): (bs: seq<Business>)
    requires o.Page?
    ensures o.businesses.None? ==> bs == []
    ensures o.businesses.Some? ==> bs == o.businesses.value
  {
    if o.businesses.Some? then o.businesses.value else []
  }

  /** The `k`-th answer is a page with at least one business, so the paging loop goes on. */
  predicate NonEmptyPage(pages: seq<FetchOutcome>, k: nat)
  {
    PageAt(pages, k).Page? && Businesses(PageAt(pages, k)) != []
  }

  /** The first `n` requests of a cuisine's paging loop, in the order they are made. */
  function Paged(cuisine: string, location: string, n: nat): (rs: seq<FetchRequest>)
    ensures |rs| == n
  {
    if n == 0 then [] else Paged(cuisine, location, n - 1) + [FetchRequest(cuisine, location, PageSize * (n - 1))]
  }

  /** The `j`-th request of a cuisine asks for the page at offset 50·j. */
  lemma {:induction false} PagedAt(cuisine: string, location: string, n: nat, j: nat)
    requires j < n
    ensures Paged(cuisine, location, n)[j] == FetchRequest(cuisine, location, PageSize * j)
  {
    if j < n - 1 {
      PagedAt(cuisine, location, n - 1, j);
    }
  }

  /** The requests of a handler run that reached the `i`-th cuisine, `counts[i]` pages for each. */
  function Schedule(cs: seq<string>, counts: seq<nat>): seq<FetchRequest>
    requires |cs| == |counts|
  {
    if cs == [] then []
    else Schedule(cs[..|cs| - 1], counts[..|counts| - 1]) + Paged(cs[|cs| - 1], DefaultLocation, counts[|counts| - 1])
  }

  /** The requests of a cuisine are made at strictly increasing offsets, one page apart. */
  lemma {:induction false} PagedOffsetsIncrease(cuisine: string, location: string, n: nat, i: nat, j: nat)
    requires i < j < n
    ensures Paged(cuisine, location, n)[i].offset < Paged(cuisine, location, n)[j].offset
    ensures Paged(cuisine, location, n)[j].offset - Paged(cuisine, location, n)[i].offset == PageSize * (j - i)
  {
    PagedAt(cuisine, location, n, i);
    PagedAt(cuisine, location, n, j);
  }

  // ---------------------------------------------------------------------------------------------------------
  // The seeding of one cuisine

  /** `t` keeps every item of `t0` unchanged, and every item it adds has one of the cuisines `cs`. */
  ghost predicate Extends(t0: Table, t: Table, cs: set<string>)
  {
    && (forall id :: id in t0 ==> id in t && t[id] == t0[id])
    && (forall id :: id in t && id !in t0 ==> t[id].cuisine in cs)
  }

  lemma ExtendsTrans(a: Table, b: Table, c: Table, cs: set<string>, ds: set<string>)
    requires Extends(a, b, cs) && Extends(b, c, ds) && ds <= cs
    ensures Extends(a, c, cs)
  {
  }

  /** How far the seeding of a cuisine has got: the table, `uniqueRestaurants`, and the puts made so far. */
  datatype Progress = Progress(table: Table, unique: nat, attempts: nat)

  /** One `storeRestaurantInDynamoDB` call and the count update after it; the `k`-th put of a run reads the
      clock `now(k)` and fails for another reason than a duplicate when `putFails(k)`. */
  function StoreStep(p: Progress, b: Business, cuisine: string, now: nat -> string, putFails: nat -> bool): Progress
  {
    var r := Put(p.table, CreateDynamoEntry(b, cuisine, now(p.attempts)), putFails(p.attempts));
    Progress(r.table, if r.isNew then p.unique + 1 else p.unique, p.attempts + 1)
  }

  /** The inner `for` loop over one page: the businesses are stored in order until the count reaches 50. */
  function StoredPage(p: Progress, bs: seq<Business>, cuisine: string, now: nat -> string,
                      putFails: nat -> bool): (q: Progress)
    ensures p.attempts <= q.attempts <= p.attempts + |bs|
    ensures p.unique <= q.unique
    decreases |bs|
  {
    if bs == [] then p
    else
      var q := StoreStep(p, bs[0], cuisine, now, putFails);
      if q.unique >= NumberOfRestaurantsByCuisine then q else StoredPage(q, bs[1..], cuisine, now, putFails)
  }

  /** One step of the inner loop: storing the rest of a page from its `i`-th business on. */
  lemma StoredPageStep(p: Progress, bs: seq<Business>, i: nat, cuisine: string, now: nat -> string,
                       putFails: nat -> bool)
    requires i < |bs|
    ensures var q := StoreStep(p, bs[i], cuisine, now, putFails);
      StoredPage(p, bs[i..], cuisine, now, putFails) ==
        if q.unique >= NumberOfRestaurantsByCuisine then q else StoredPage(q, bs[i + 1..], cuisine, now, putFails)
  {
    assert bs[i..][0] == bs[i] && bs[i..][1..] == bs[i + 1..];
  }

  /** Where the paging loop of a cuisine ends: its progress, whether a fetch error escaped, and how many
      pages were requested. */
  datatype Run = Run(progress: Progress, outcome: Result<(), string>, pagesFetched: nat)

  /** The `while` loop of `fetchAndStoreRestaurants` from the `k`-th page on. */
  function Seeded(p: Progress, pages: seq<FetchOutcome>, k: nat, cuisine: string, now: nat -> string,
                  putFails: nat -> bool): (r: Run)
    ensures k <= r.pagesFetched
    decreases |pages| - k
  {
    if p.unique >= NumberOfRestaurantsByCuisine then Run(p, Success(()), k)
    else
      var o := PageAt(pages, k);
      if o.FetchError? then Run(p, Failure(o.message), k + 1)
      else if Businesses(o) == [] then Run(p, Success(()), k + 1)
      else Seeded(StoredPage(p, Businesses(o), cuisine, now, putFails), pages, k + 1, cuisine, now, putFails)
  }

  /** Storing a page never overwrites an item, adds only items of the searched cuisine, one for each new
      entry counted, never takes the count past 50, and skips the rest of the page only when the count
      reached 50. */
  lemma {:induction false} StoredPageGrows(p: Progress, bs: seq<Business>, cuisine: string, now: nat -> string,
                                           putFails: nat -> bool)
    requires Keyed(p.table) && p.unique < NumberOfRestaurantsByCuisine
    ensures var q := StoredPage(p, bs, cuisine, now, putFails);
      && Grows(p, q, cuisine)
      && p.attempts <= q.attempts <= p.attempts + |bs|
      && (q.unique < NumberOfRestaurantsByCuisine ==> q.attempts == p.attempts + |bs|)
    decreases |bs|
  {
    if bs != [] {
      var e := CreateDynamoEntry(bs[0], cuisine, now(p.attempts));
      PutInsertsIfAbsent(p.table, e, putFails(p.attempts));
      var q := StoreStep(p, bs[0], cuisine, now, putFails);
      assert Grows(p, q, cuisine);
      if q.unique < NumberOfRestaurantsByCuisine {
        StoredPageGrows(q, bs[1..], cuisine, now, putFails);
        GrowsTrans(p, q, StoredPage(q, bs[1..], cuisine, now, putFails), cuisine);
      }
    }
  }

  /** How the seeding of a cuisine may change its progress: no item is overwritten, every item added has
      the cuisine and its own id, one item is added for each new entry counted, and the count stays at
      most 50. */
  ghost predicate Grows(p: Progress, q: Progress, cuisine: string)
  {
    && Keyed(q.table)
    && Extends(p.table, q.table, {cuisine})
    && |q.table| == |p.table| + (q.unique - p.unique)
    && p.unique <= q.unique <= NumberOfRestaurantsByCuisine
  }

  lemma GrowsTrans(p: Progress, q: Progress, r: Progress, cuisine: string)
    requires Grows(p, q, cuisine) && Grows(q, r, cuisine)
    ensures Grows(p, r, cuisine)
  {
    ExtendsTrans(p.table, q.table, r.table, {cuisine}, {cuisine});
  }

  /** The paging loop of a cuisine never overwrites an item and adds only items of the searched cuisine,
      one for each new entry it counts, and at most 50 of them. */
  lemma {:induction false} SeededAddsAtMostFifty(p: Progress, pages: seq<FetchOutcome>, k: nat, cuisine: string,
                                                 now: nat -> string, putFails: nat -> bool)
    requires Keyed(p.table) && p.unique <= NumberOfRestaurantsByCuisine
    decreases |pages| - k, 1
    ensures Grows(p, Seeded(p, pages, k, cuisine, now, putFails).progress, cuisine)
  {
    if p.unique < NumberOfRestaurantsByCuisine && NonEmptyPage(pages, k) {
      SeededAddsPage(p, pages, k, cuisine, now, putFails);
    } else {
      SeededStopsHere(p, pages, k, cuisine, now, putFails);
      assert Grows(p, p, cuisine);
    }
  }

  /** When the count is 50 or the page is not one with businesses, the loop stores nothing more. */
  lemma SeededStopsHere(p: Progress, pages: seq<FetchOutcome>, k: nat, cuisine: string,
                        now: nat -> string, putFails: nat -> bool)
    requires p.unique >= NumberOfRestaurantsByCuisine || !NonEmptyPage(pages, k)
    ensures Seeded(p, pages, k, cuisine, now, putFails).progress == p
  {
  }

  lemma {:induction false} SeededAddsPage(p: Progress, pages: seq<FetchOutcome>, k: nat, cuisine: string,
                                          now: nat -> string, putFails: nat -> bool)
    requires Keyed(p.table) && p.unique < NumberOfRestaurantsByCuisine && NonEmptyPage(pages, k)
    decreases |pages| - k, 0
    ensures Grows(p, Seeded(p, pages, k, cuisine, now, putFails).progress, cuisine)
  {
    var q := StoredPage(p, Businesses(PageAt(pages, k)), cuisine, now, putFails);
    assert Seeded(p, pages, k, cuisine, now, putFails) == Seeded(q, pages, k + 1, cuisine, now, putFails);
    StoredPageGrows(p, Businesses(PageAt(pages, k)), cuisine, now, putFails);
    SeededAddsAtMostFifty(q, pages, k + 1, cuisine, now, putFails);
    GrowsTrans(p, q, Seeded(q, pages, k + 1, cuisine, now, putFails).progress, cuisine);
  }

  /** The paging loop of a cuisine asks for at least one more page unless the count is already 50; every
      page but the last it asks for had businesses; and it stops only with a fetch error on the last page,
      with an empty last page, or with a count of 50. */
  lemma {:induction false} SeededStopsAtFiftyOrEmptyPage(p: Progress, pages: seq<FetchOutcome>, k: nat, cuisine: string,
                                                         now: nat -> string, putFails: nat -> bool)
    decreases |pages| - k
    ensures var r := Seeded(p, pages, k, cuisine, now, putFails);
      && r.pagesFetched >= k && (p.unique < NumberOfRestaurantsByCuisine ==> r.pagesFetched > k)
      && (forall j :: k <= j < r.pagesFetched - 1 ==> NonEmptyPage(pages, j))
      && (r.outcome.Failure? ==> r.pagesFetched > k && PageAt(pages, r.pagesFetched - 1) == FetchError(r.outcome.error))
      && (r.outcome.Success? ==>
            || r.progress.unique >= NumberOfRestaurantsByCuisine
            || (r.pagesFetched > k && PageAt(pages, r.pagesFetched - 1).Page? &&
                Businesses(PageAt(pages, r.pagesFetched - 1)) == []))
  {
    if p.unique < NumberOfRestaurantsByCuisine {
      var o := PageAt(pages, k);
      if o.Page? && Businesses(o) != [] {
        var q := StoredPage(p, Businesses(o), cuisine, now, putFails);
        SeededStopsAtFiftyOrEmptyPage(q, pages, k + 1, cuisine, now, putFails);
        assert NonEmptyPage(pages, k);
      }
    }
  }

  // ---------------------------------------------------------------------------------------------------------
  // The handler

  /** Where a handler run over `cs` ends: the table, the puts made, the fetch error that aborted it if any,
      and the number of pages requested for each cuisine it reached. */
  datatype SeedRun = SeedRun(table: Table, attempts: nat, outcome: Result<(), string>, fetched: seq<nat>)

  /** The loop of `handler`: seeds the cuisines in order, each from an empty count, and stops at the first
      fetch error. `pagesFor(c)` are the search's answers for cuisine `c`. */
  function SeededAll(t: Table, attempts: nat, cs: seq<string>, pagesFor: string -> seq<FetchOutcome>,
                     now: nat -> string, putFails: nat -> bool): (run: SeedRun)
    ensures |run.fetched| <= |cs|
    decreases |cs|
  {
    if cs == [] then SeedRun(t, attempts, Success(()), [])
    else
      var first := Seeded(Progress(t, 0, attempts), pagesFor(cs[0]), 0, cs[0], now, putFails);
      if first.outcome.Failure? then
        SeedRun(first.progress.table, first.progress.attempts, first.outcome, [first.pagesFetched])
      else
        var rest := SeededAll(first.progress.table, first.progress.attempts, cs[1..], pagesFor, now, putFails);
        SeedRun(rest.table, rest.attempts, rest.outcome, [first.pagesFetched] + rest.fetched)
  }

  /** A handler run keeps every item it found and adds only items of the cuisines searched. */
  lemma {:induction false} SeededAllKeepsItems(t: Table, attempts: nat, cs: seq<string>,
                                               pagesFor: string -> seq<FetchOutcome>,
                                               now: nat -> string, putFails: nat -> bool)
    requires Keyed(t)
    decreases |cs|
    ensures var run := SeededAll(t, attempts, cs, pagesFor, now, putFails);
      Keyed(run.table) && Extends(t, run.table, set c | c in cs)
  {
    if cs != [] {
      var p := Progress(t, 0, attempts);
      SeededAddsAtMostFifty(p, pagesFor(cs[0]), 0, cs[0], now, putFails);
      var first := Seeded(p, pagesFor(cs[0]), 0, cs[0], now, putFails);
      var all := set c | c in cs;
      assert {cs[0]} <= all;
      if first.outcome.Success? {
        var tail := cs[1..];
        SeededAllKeepsItems(first.progress.table, first.progress.attempts, tail, pagesFor, now, putFails);
        var rest := SeededAll(first.progress.table, first.progress.attempts, tail, pagesFor, now, putFails);
        assert (set c | c in tail) <= all;
        ExtendsTrans(t, first.progress.table, rest.table, all, set c | c in tail);
      }
    }
  }

  /** A run of the handler asks for at least one page of every cuisine it reaches, reaches every cuisine
      unless a fetch error aborts it, and then the error is that of the last page requested for the
      last cuisine it reached. */
  ghost predicate AbortsOnlyOnFetchError(run: SeedRun, cs: seq<string>, pagesFor: string -> seq<FetchOutcome>)
  {
    && |run.fetched| <= |cs|
    && (cs != [] ==> |run.fetched| >= 1)
    && (forall i :: 0 <= i < |run.fetched| ==> run.fetched[i] >= 1)
    && (run.outcome.Success? ==> |run.fetched| == |cs|)
    && (run.outcome.Failure? ==>
          var last := |run.fetched| - 1;
          last >= 0 && PageAt(pagesFor(cs[last]), run.fetched[last] - 1) == FetchError(run.outcome.error))
  }

  /** The seeding of a cuisine from a count of 0 asks for at least one page, and aborts only on the
      error of the last page it asked for. */
  lemma FirstPageAsked(p: Progress, pages: seq<FetchOutcome>, cuisine: string, now: nat -> string,
                       putFails: nat -> bool)
    requires p.unique == 0
    ensures var r := Seeded(p, pages, 0, cuisine, now, putFails);
      && r.pagesFetched >= 1
      && (r.outcome.Failure? ==> PageAt(pages, r.pagesFetched - 1) == FetchError(r.outcome.error))
  {
    SeededStopsAtFiftyOrEmptyPage(p, pages, 0, cuisine, now, putFails);
  }

  lemma {:induction false} SeededAllAbortsOnlyOnFetchError(t: Table, attempts: nat, cs: seq<string>,
                                                           pagesFor: string -> seq<FetchOutcome>,
                                                           now: nat -> string, putFails: nat -> bool)
    decreases |cs|, 1
    ensures AbortsOnlyOnFetchError(SeededAll(t, attempts, cs, pagesFor, now, putFails), cs, pagesFor)
  {
    if cs != [] {
      var first := Seeded(Progress(t, 0, attempts), pagesFor(cs[0]), 0, cs[0], now, putFails);
      if first.outcome.Success? {
        SeededAllGoesOn(t, attempts, cs, pagesFor, now, putFails);
      } else {
        SeededAllStopsAtFirst(t, attempts, cs, pagesFor, now, putFails);
      }
    }
  }

  /** The case of `SeededAllAbortsOnlyOnFetchError` where the first cuisine ends in a fetch error. */
  lemma SeededAllStopsAtFirst(t: Table, attempts: nat, cs: seq<string>, pagesFor: string -> seq<FetchOutcome>,
                              now: nat -> string, putFails: nat -> bool)
    requires cs != []
    requires Seeded(Progress(t, 0, attempts), pagesFor(cs[0]), 0, cs[0], now, putFails).outcome.Failure?
    ensures AbortsOnlyOnFetchError(SeededAll(t, attempts, cs, pagesFor, now, putFails), cs, pagesFor)
  {
    FirstPageAsked(Progress(t, 0, attempts), pagesFor(cs[0]), cs[0], now, putFails);
    SeededAllStep(t, attempts, cs, pagesFor, now, putFails);
  }

  /** The case of `SeededAllAbortsOnlyOnFetchError` where the first cuisine is seeded without error. */
  lemma {:induction false} SeededAllGoesOn(t: Table, attempts: nat, cs: seq<string>,
                                           pagesFor: string -> seq<FetchOutcome>,
                                           now: nat -> string, putFails: nat -> bool)
    requires cs != []
    requires Seeded(Progress(t, 0, attempts), pagesFor(cs[0]), 0, cs[0], now, putFails).outcome.Success?
    decreases |cs|, 0
    ensures AbortsOnlyOnFetchError(SeededAll(t, attempts, cs, pagesFor, now, putFails), cs, pagesFor)
  {
    var first := Seeded(Progress(t, 0, attempts), pagesFor(cs[0]), 0, cs[0], now, putFails);
    FirstPageAsked(Progress(t, 0, attempts), pagesFor(cs[0]), cs[0], now, putFails);
    SeededAllStep(t, attempts, cs, pagesFor, now, putFails);
    var tail := cs[1..];
    SeededAllAbortsOnlyOnFetchError(first.progress.table, first.progress.attempts, tail, pagesFor, now, putFails);
    var rest := SeededAll(first.progress.table, first.progress.attempts, tail, pagesFor, now, putFails);
    AbortsOnlyOnFetchErrorCons(SeededAll(t, attempts, cs, pagesFor, now, putFails), rest, first.pagesFetched,
                               cs, pagesFor);
  }

  /** A run whose first cuisine asked for `f >= 1` pages without error and whose rest is `rest`. */
  lemma AbortsOnlyOnFetchErrorCons(run: SeedRun, rest: SeedRun, f: nat, cs: seq<string>,
                                   pagesFor: string -> seq<FetchOutcome>)
    requires cs != [] && f >= 1
    requires run.fetched == [f] + rest.fetched && run.outcome == rest.outcome
    requires AbortsOnlyOnFetchError(rest, cs[1..], pagesFor)
    ensures AbortsOnlyOnFetchError(run, cs, pagesFor)
  {
    var tail := cs[1..];
    assert forall i :: 0 < i < |run.fetched| ==> run.fetched[i] == rest.fetched[i - 1];
    if rest.outcome.Failure? {
      var last := |rest.fetched| - 1;
      assert cs[last + 1] == tail[last] && run.fetched[last + 1] == rest.fetched[last];
    }
  }

  /** One step of the handler loop: the run over `cs` is the run of its first cuisine followed, unless
      that one failed, by the run over the rest. */
  lemma SeededAllStep(t: Table, attempts: nat, cs: seq<string>, pagesFor: string -> seq<FetchOutcome>,
                      now: nat -> string, putFails: nat -> bool)
    requires cs != []
    ensures var first := Seeded(Progress(t, 0, attempts), pagesFor(cs[0]), 0, cs[0], now, putFails);
      var run := SeededAll(t, attempts, cs, pagesFor, now, putFails);
      && (first.outcome.Failure? ==>
            run == SeedRun(first.progress.table, first.progress.attempts, first.outcome, [first.pagesFetched]))
      && (first.outcome.Success? ==>
            var rest := SeededAll(first.progress.table, first.progress.attempts, cs[1..], pagesFor, now, putFails);
            run == SeedRun(rest.table, rest.attempts, rest.outcome, [first.pagesFetched] + rest.fetched))
  {
  }

  datatype HttpResponse = HttpResponse(statusCode: int, body: string)

  /** `JSON.stringify` of a text. */
  function Quote(s: string): string
  {
    "\"" + s + "\""
  }

  const SuccessMessage := "Successfully fetched and stored restaurants!"
  const ErrorPrefix := "Error fetching and storing restaurants: "

  /** The handler's answer to the end of its loop. */
  function Respond(outcome: Result<(), string>): (r: HttpResponse)
    ensures r.statusCode == 200 <==> outcome.Success?
    ensures outcome.Success? ==> r.body == Quote(SuccessMessage)
    ensures outcome.Failure? ==> r.statusCode == 500 && r.body == Quote(ErrorPrefix + outcome.error)
  {
    match outcome
    case Success(_) => HttpResponse(200, Quote(SuccessMessage))
    case Failure(message) => HttpResponse(500, Quote(ErrorPrefix + message))
  }

  /** The handler answers 200 with the success text exactly when every cuisine was seeded, and otherwise
      500 with the message of the fetch error that aborted the run; either way every item added before
      is kept, and only items of the cuisines searched were added. */
  lemma SeedingResponse(t: Table, attempts: nat, cs: seq<string>, pagesFor: string -> seq<FetchOutcome>,
                        now: nat -> string, putFails: nat -> bool)
    requires Keyed(t)
    ensures var run := SeededAll(t, attempts, cs, pagesFor, now, putFails);
      var response := Respond(run.outcome);
      && (response.statusCode == 200 <==> run.outcome.Success?)
      && (run.outcome.Success? ==> response.body == Quote(SuccessMessage) && |run.fetched| == |cs|)
      && (run.outcome.Failure? ==> response == HttpResponse(500, Quote(ErrorPrefix + run.outcome.error)))
      && AbortsOnlyOnFetchError(run, cs, pagesFor)
      && Extends(t, run.table, set c | c in cs)
  {
    SeededAllKeepsItems(t, attempts, cs, pagesFor, now, putFails);
    SeededAllAbortsOnlyOnFetchError(t, attempts, cs, pagesFor, now, putFails);
  }

  /** The catalog table, with the trace of the search requests made and the number of puts attempted. */
  class CatalogSeeder {
    var table: Table
    var fetches: seq<FetchRequest>
    var putAttempts: nat

    ghost predicate Valid()
      reads this
    {
      Keyed(table)
    }

    constructor (initial: Table)
      requires Keyed(initial)
      ensures Valid() && table == initial && fetches == [] && putAttempts == 0
    {
      table := initial;
      fetches := [];
      putAttempts := 0;
    }

    /** `fetchRestaurantsFromYelp`: `page` is what the search answers to this request. */
    method FetchRestaurantsFromYelp(cuisine: string, location: string, offset: nat, page: FetchOutcome)
      returns (r: Result<seq<Business>, string>)
      modifies this
      ensures fetches == old(fetches) + [FetchRequest(cuisine, location, offset)]
      ensures table == old(table) && putAttempts == old(putAttempts)
      ensures page.FetchError? ==> r == Failure(page.message)
      ensures page.Page? ==> r == Success(Businesses(page))
    {
      fetches := fetches + [FetchRequest(cuisine, location, offset)];
      match page
      case FetchError(message) => r := Failure(message);
      case Page(_) => r := Success(Businesses(page));
    }

    /** `storeRestaurantInDynamoDB`. */
    method StoreRestaurantInDynamoDB(b: Business, cuisine: string, now: nat -> string, putFails: nat -> bool)
      returns (isNew: bool)
      modifies this
      ensures PutResult(table, isNew) ==
        Put(old(table), CreateDynamoEntry(b, cuisine, now(old(putAttempts))), putFails(old(putAttempts)))
      ensures putAttempts == old(putAttempts) + 1 && fetches == old(fetches)
    {
      var item := CreateDynamoEntry(b, cuisine, now(putAttempts));
      if item.id in table || putFails(putAttempts) {
        isNew := false;
      } else {
        table := table[item.id := item];
        isNew := true;
      }
      putAttempts := putAttempts + 1;
    }

    /** The inner `for` loop of `fetchAndStoreRestaurants` over one page. */
    method StorePage(restaurants: seq<Business>, cuisine: string, now: nat -> string, putFails: nat -> bool,
                     uniqueBefore: nat)
      returns (uniqueRestaurants: nat)
      modifies this
      ensures Progress(table, uniqueRestaurants, putAttempts) ==
        StoredPage(Progress(old(table), uniqueBefore, old(putAttempts)), restaurants, cuisine, now, putFails)
      ensures fetches == old(fetches)
    {
      ghost var whole := StoredPage(Progress(table, uniqueBefore, putAttempts), restaurants, cuisine, now, putFails);
      uniqueRestaurants := uniqueBefore;
      var i := 0;
      while i < |restaurants|
        invariant 0 <= i <= |restaurants| && fetches == old(fetches)
        invariant StoredPage(Progress(table, uniqueRestaurants, putAttempts), restaurants[i..], cuisine, now, putFails)
                  == whole
      {
        ghost var next := StoreStep(Progress(table, uniqueRestaurants, putAttempts), restaurants[i], cuisine, now, putFails);
        StoredPageStep(Progress(table, uniqueRestaurants, putAttempts), restaurants, i, cuisine, now, putFails);
        var isNew := StoreRestaurantInDynamoDB(restaurants[i], cuisine, now, putFails);
        if isNew {
          uniqueRestaurants := uniqueRestaurants + 1;
        }
        assert Progress(table, uniqueRestaurants, putAttempts) == next;
        if uniqueRestaurants >= NumberOfRestaurantsByCuisine {
          return;
        }
        i := i + 1;
      }
    }

    /** `fetchAndStoreRestaurants`: `pages` are the search's answers for this cuisine. */
    method FetchAndStoreRestaurants(cuisine: string, location: string, pages: seq<FetchOutcome>,
                                    now: nat -> string, putFails: nat -> bool)
      returns (r: Result<(), string>)
      requires Valid()
      modifies this
      ensures Valid()
      ensures var run := Seeded(Progress(old(table), 0, old(putAttempts)), pages, 0, cuisine, now, putFails);
        && table == run.progress.table && putAttempts == run.progress.attempts && r == run.outcome
        && fetches == old(fetches) + Paged(cuisine, location, run.pagesFetched)
    {
      ghost var start := Progress(table, 0, putAttempts);
      ghost var whole := Seeded(start, pages, 0, cuisine, now, putFails);
      SeededAddsAtMostFifty(start, pages, 0, cuisine, now, putFails);
      var offset := 0;
      var uniqueRestaurants: nat := 0;
      var k := 0;
      while uniqueRestaurants < NumberOfRestaurantsByCuisine
        invariant offset == PageSize * k && k <= |pages|
        invariant fetches == old(fetches) + Paged(cuisine, location, k)
        invariant Seeded(Progress(table, uniqueRestaurants, putAttempts), pages, k, cuisine, now, putFails) == whole
        decreases |pages| - k
      {
        var fetched := FetchRestaurantsFromYelp(cuisine, location, offset, PageAt(pages, k));
        if fetched.Failure? {
          return Failure(fetched.error);
        }
        var restaurants := fetched.value;
        if |restaurants| == 0 {
          return Success(());
        }
        uniqueRestaurants := StorePage(restaurants, cuisine, now, putFails, uniqueRestaurants);
        offset := offset + PageSize;
        k := k + 1;
      }
      r := Success(());
    }

    /** The loop of `handler` over `cuisines`; the ghost result holds the number of pages requested for
        each cuisine that was reached. */
    method SeedCuisines(cuisines: seq<string>, pagesFor: string -> seq<FetchOutcome>, now: nat -> string,
                        putFails: nat -> bool)
      returns (r: Result<(), string>, ghost fetched: seq<nat>)
      requires Valid()
      modifies this
      ensures Valid()
      ensures var run := SeededAll(old(table), old(putAttempts), cuisines, pagesFor, now, putFails);
        && table == run.table && putAttempts == run.attempts && r == run.outcome && fetched == run.fetched
        && fetches == old(fetches) + Schedule(cuisines[..|fetched|], fetched)
    {
      ghost var whole := SeededAll(table, putAttempts, cuisines, pagesFor, now, putFails);
      fetched := [];
      var c := 0;
      while c < |cuisines|
        invariant 0 <= c <= |cuisines| && |fetched| == c && Valid()
        invariant fetches == old(fetches) + Schedule(cuisines[..c], fetched)
        invariant var rest := SeededAll(table, putAttempts, cuisines[c..], pagesFor, now, putFails);
          whole == SeedRun(rest.table, rest.attempts, rest.outcome, fetched + rest.fetched)
      {
        var cuisine := cuisines[c];
        assert cuisines[c..][0] == cuisine && cuisines[c..][1..] == cuisines[c + 1..];
        SeededAllStep(table, putAttempts, cuisines[c..], pagesFor, now, putFails);
        ghost var n := Seeded(Progress(table, 0, putAttempts), pagesFor(cuisine), 0, cuisine, now, putFails).pagesFetched;
        var outcome := FetchAndStoreRestaurants(cuisine, DefaultLocation, pagesFor(cuisine), now, putFails);
        ScheduleStep(old(fetches), cuisines, fetched, c, n);
        ghost var before := fetched;
        fetched := fetched + [n];
        if outcome.Failure? {
          return outcome, fetched;
        }
        ghost var rest := SeededAll(table, putAttempts, cuisines[c + 1..], pagesFor, now, putFails);
        ConcatAssoc(before, [n], rest.fetched);
        c := c + 1;
      }
      assert fetched + [] == fetched;
      r := Success(());
    }

    /** `handler`: seeds the five cuisines in order and answers 200, or 500 with the first fetch error. */
    method Handler(pagesFor: string -> seq<FetchOutcome>, now: nat -> string, putFails: nat -> bool)
      returns (response: HttpResponse, ghost fetched: seq<nat>)
      requires Valid()
      modifies this
      ensures Valid()
      ensures var run := SeededAll(old(table), old(putAttempts), Cuisines, pagesFor, now, putFails);
        && table == run.table && response == Respond(run.outcome) && fetched == run.fetched
        && fetches == old(fetches) + Schedule(Cuisines[..|fetched|], fetched)
    {
      var r;
      r, fetched := SeedCuisines(Cuisines, pagesFor, now, putFails);
      response := Respond(r);
    }
  }

  /** Appending the requests of the next cuisine to a run's schedule. */
  lemma ScheduleStep(before: seq<FetchRequest>, cs: seq<string>, fetched: seq<nat>, c: nat, n: nat)
    requires c < |cs| && |fetched| == c
    ensures before + Schedule(cs[..c], fetched) + Paged(cs[c], DefaultLocation, n) ==
            before + Schedule(cs[..c + 1], fetched + [n])
  {
    var next := cs[..c + 1];
    var counts := fetched + [n];
    assert next[..c] == cs[..c] && next[c] == cs[c];
    assert counts[..c] == fetched && counts[c] == n;
    assert Schedule(next, counts) == Schedule(cs[..c], fetched) + Paged(cs[c], DefaultLocation, n);
  }
}
