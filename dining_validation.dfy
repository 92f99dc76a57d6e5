/** Slot resolution and validation of a dining-suggestion request (lambdas/lf1.js, `validateDining`). */
module DiningValidation {
  import opened Common
  import opened JsText

  // ---------------------------------------------------------------- slots

  /** The `value` object of a slot as the dialogue service sends it. */
  datatype SlotValue = SlotValue(interpretedValue: Option<string>, originalValue: Option<string>)

  /** One entry of the `slots` object: explicitly `null`, or a holder whose `value` may be missing.
      A key absent from the map is `undefined`, which every check treats like `null`. */
  datatype Slot = Null | Holder(value: Option<SlotValue>)

  type Slots = map<string, Slot>

  /** The six fields the validator checks, in the order it checks them. */
  datatype Field = Location | CuisineType | NoOfPeople | Date | Time | Email

  const FieldOrder: seq<Field> := [Location, CuisineType, NoOfPeople, Date, Time, Email]

  /** The slot name of each field; the party size is spelled `NoOfPeople`. */
  function Key(f: Field): string
  {
    match f
    case Location => "Location"
    case CuisineType => "CuisineType"
    case NoOfPeople => "NoOfPeople"
    case Date => "Date"
    case Time => "Time"
    case Email => "Email"
  }

  lemma KeyInjective(f: Field, g: Field)
    ensures Key(f) == Key(g) <==> f == g
  {
  }

  predicate Truthy(o: Option<string>) { o.Some? && o.value != "" }

  /** The `value` object of the slot named `key`, when `slots.key.value` can be read. */
  function ValueOf(slots: Slots, key: string): Option<SlotValue>
  {
    if key in slots && slots[key].Holder? then slots[key].value else None
  }

  /** `slots.key.value.interpretedValue || slots.key.value.originalValue`, with a thrown `TypeError`
      (caught by `tryEx`) and every falsy result reading as `None`. */
  function Resolve(slots: Slots, key: string): (r: Option<string>)
    ensures r.Some? ==> r.value != ""
    ensures ValueOf(slots, key).None? ==> r.None?
    ensures ValueOf(slots, key).Some? && Truthy(ValueOf(slots, key).value.interpretedValue) ==>
              r == ValueOf(slots, key).value.interpretedValue
    ensures ValueOf(slots, key).Some? && !Truthy(ValueOf(slots, key).value.interpretedValue) ==>
              (r.Some? <==> Truthy(ValueOf(slots, key).value.originalValue)) &&
              (r.Some? ==> r == ValueOf(slots, key).value.originalValue)
  {
    match ValueOf(slots, key)
    case None => None
    case Some(v) =>
      if Truthy(v.interpretedValue) then v.interpretedValue
      else if Truthy(v.originalValue) then v.originalValue
      else None
  }

  /** `safeInt`: a missing value stays missing; otherwise `parseInt`, whose `NaN` is also `None`. */
  function SafeInt(s: Option<string>): (r: Option<int>)
    ensures s.None? ==> r.None?
    ensures s.Some? ==> r == ParseInt(s.value)
  {
    match s
    case None => None
    case Some(t) => ParseInt(t)
  }

  // ---------------------------------------------------------------- the fixed vocabularies

  const Cities: seq<string> :=
    ["new york", "los angeles", "chicago", "houston", "philadelphia", "nyc", "manhattan"]

  const Cuisines: seq<string> := ["vegetarian", "seafood", "indian", "chinese", "italian"]

  predicate IsValidCity(city: string) { Lower(city) in Cities }

  predicate IsValidCuisine(cuisine: string) { Lower(cuisine) in Cuisines }

  // ---------------------------------------------------------------- e-mail shape

  /** A character that `[^\s@]` matches. */
  predicate Plain(c: char) { !IsSpace(c) && c != '@' }

  ghost predicate AllPlain(t: string) { forall k :: 0 <= k < |t| ==> Plain(t[k]) }

  /** `t` has a dot with at least one character on each side. */
  ghost predicate InnerDot(t: string) { exists k :: 0 < k < |t| - 1 && t[k] == '.' }

  /** What `/^[^\s@]+@[^\s@]+\.[^\s@]+$/` accepts: a non-empty local part, one `@`, and a domain with
      no white space and no further `@` that has a dot with text on both sides. */
  ghost predicate EmailShape(s: string)
  {
    exists i :: 0 < i < |s| && s[i] == '@' && AllPlain(s[..i]) && AllPlain(s[i + 1..]) && InnerDot(s[i + 1..])
  }

  /** The states of a recogniser for the e-mail expression: in the local part (empty or not), just after
      the `@`, in a domain with or without a usable dot, just after such a dot, and done. */
  datatype EmailState = LocalStart | LocalPart | DomainStart | DomainPart | AfterDot | Accepting | Rejecting

  function EmailStep(st: EmailState, c: char): EmailState
  {
    if IsSpace(c) then Rejecting
    else match st
      case LocalStart => if c == '@' then Rejecting else LocalPart
      case LocalPart => if c == '@' then DomainStart else LocalPart
      case DomainStart => if c == '@' then Rejecting else DomainPart
      case DomainPart => if c == '@' then Rejecting else if c == '.' then AfterDot else DomainPart
      case AfterDot => if c == '@' then Rejecting else Accepting
      case Accepting => if c == '@' then Rejecting else Accepting
      case Rejecting => Rejecting
  }

  function EmailRun(st: EmailState, s: string): EmailState
    decreases s
  {
    if s == [] then st else EmailRun(EmailStep(st, s[0]), s[1..])
  }

  /** `isValidEmail`: `emailRegex.test(email)`. */
  predicate IsValidEmail(email: string) { EmailRun(LocalStart, email) == Accepting }

  lemma {:induction false} RejectingIsFinal(t: string)
    ensures EmailRun(Rejecting, t) == Rejecting
  {
    if t != [] {
      RejectingIsFinal(t[1..]);
    }
  }

  lemma {:induction false} AcceptingRun(t: string)
    ensures EmailRun(Accepting, t) == Accepting <==> AllPlain(t)
  {
    if t != [] {
      if Plain(t[0]) {
        AcceptingRun(t[1..]);
        assert AllPlain(t) <==> AllPlain(t[1..]) by {
          assert forall k :: 0 < k < |t| ==> t[k] == t[1..][k - 1];
        }
      } else {
        RejectingIsFinal(t[1..]);
      }
    }
  }

  lemma {:induction false} AfterDotRun(t: string)
    ensures EmailRun(AfterDot, t) == Accepting <==> |t| > 0 && AllPlain(t)
  {
    if t != [] {
      if Plain(t[0]) {
        AcceptingRun(t[1..]);
        assert AllPlain(t) <==> AllPlain(t[1..]) by {
          assert forall k :: 0 < k < |t| ==> t[k] == t[1..][k - 1];
        }
      } else {
        RejectingIsFinal(t[1..]);
      }
    }
  }

  /** A dot at position `k` of `t` that still has a character after it. */
  ghost predicate DotBeforeEnd(t: string) { exists k :: 0 <= k < |t| - 1 && t[k] == '.' }

  lemma {:induction false} DomainPartRun(t: string)
    ensures EmailRun(DomainPart, t) == Accepting <==> AllPlain(t) && DotBeforeEnd(t)
  {
    if t != [] {
      var c, u := t[0], t[1..];
      assert forall k :: 0 < k < |t| ==> t[k] == u[k - 1];
      if !Plain(c) {
        RejectingIsFinal(u);
      } else if c == '.' {
        AfterDotRun(u);
        if |u| > 0 {
          assert t[0] == '.';
        }
      } else {
        DomainPartRun(u);
        if DotBeforeEnd(t) {
          var k :| 0 <= k < |t| - 1 && t[k] == '.';
          assert u[k - 1] == '.';
        }
        if DotBeforeEnd(u) {
          var k :| 0 <= k < |u| - 1 && u[k] == '.';
          assert t[k + 1] == '.';
        }
      }
    }
  }

  lemma {:induction false} DomainStartRun(t: string)
    ensures EmailRun(DomainStart, t) == Accepting <==> AllPlain(t) && InnerDot(t)
  {
    if t != [] {
      var c, u := t[0], t[1..];
      assert forall k :: 0 < k < |t| ==> t[k] == u[k - 1];
      if !Plain(c) {
        RejectingIsFinal(u);
      } else {
        DomainPartRun(u);
        if InnerDot(t) {
          var k :| 0 < k < |t| - 1 && t[k] == '.';
          assert u[k - 1] == '.';
        }
        if DotBeforeEnd(u) {
          var k :| 0 <= k < |u| - 1 && u[k] == '.';
          assert t[k + 1] == '.';
        }
      }
    } else {
      assert !InnerDot(t);
    }
  }

  lemma AllPlainCons(t: string)
    requires t != []
    ensures AllPlain(t) <==> Plain(t[0]) && AllPlain(t[1..])
  {
    assert forall k :: 0 < k < |t| ==> t[k] == t[1..][k - 1];
  }

  /** `t` is `x @ y` where `x` is plain (possibly empty) and `y` is a valid domain. */
  ghost predicate LocalRest(t: string)
  {
    exists i :: 0 <= i < |t| && SplitsAt(t, i)
  }

  ghost predicate SplitsAt(t: string, i: nat)
    requires i < |t|
  {
    t[i] == '@' && AllPlain(t[..i]) && AllPlain(t[i + 1..]) && InnerDot(t[i + 1..])
  }

  /** Splitting `c + u` after its first character shifts the position of the `@` by one. */
  lemma SplitShift(t: string, i: nat)
    requires 0 < i < |t| && Plain(t[0])
    ensures SplitsAt(t, i) <==> SplitsAt(t[1..], i - 1)
  {
    var u := t[1..];
    assert t[..i] != [] && t[..i][0] == t[0] && t[..i][1..] == u[..i - 1];
    AllPlainCons(t[..i]);
    assert t[i + 1..] == u[i..];
  }

  lemma {:induction false} LocalPartRun(t: string)
    ensures EmailRun(LocalPart, t) == Accepting <==> LocalRest(t)
  {
    if t != [] {
      var c, u := t[0], t[1..];
      if IsSpace(c) {
        RejectingIsFinal(u);
        forall i | 0 <= i < |t| ensures !SplitsAt(t, i) {
          if i > 0 {
            assert t[..i][0] == c;
          }
        }
      } else if c == '@' {
        DomainStartRun(u);
        assert t[..0] == [] && t[1..] == u;
        assert SplitsAt(t, 0) <==> AllPlain(u) && InnerDot(u);
        forall i | 0 < i < |t| ensures !SplitsAt(t, i) {
          assert t[..i][0] == c;
        }
      } else {
        LocalPartRun(u);
        assert !SplitsAt(t, 0);
        forall i | 0 < i < |t| ensures SplitsAt(t, i) <==> SplitsAt(u, i - 1) {
          SplitShift(t, i);
        }
        if LocalRest(u) {
          var i :| 0 <= i < |u| && SplitsAt(u, i);
          assert SplitsAt(t, i + 1);
        }
      }
    }
  }

  /** The recogniser accepts exactly the strings of the e-mail expression. */
  lemma {:induction false} EmailAutomatonMatchesShape(s: string)
    ensures IsValidEmail(s) <==> EmailShape(s)
  {
    if EmailShape(s) {
      var i :| 0 < i < |s| && s[i] == '@' && AllPlain(s[..i]) && AllPlain(s[i + 1..]) && InnerDot(s[i + 1..]);
      assert SplitsAt(s, i);
    }
    if s != [] {
      var c, u := s[0], s[1..];
      if !Plain(c) {
        RejectingIsFinal(u);
        forall i | 0 < i < |s| ensures !SplitsAt(s, i) {
          assert s[..i][0] == c;
        }
      } else {
        LocalPartRun(u);
        forall i | 0 < i < |s| ensures SplitsAt(s, i) <==> SplitsAt(u, i - 1) {
          SplitShift(s, i);
        }
        if LocalRest(u) {
          var i :| 0 <= i < |u| && SplitsAt(u, i);
          assert SplitsAt(s, i + 1);
        }
      }
    }
  }

  // ---------------------------------------------------------------- prompts

  const LocationPrompt := "Where are you looking to eat?"
  const CuisinePrompt := "What type of cuisine are you looking for?"
  const PeoplePrompt := "How many people will be dining?"
  const PartyRangePrompt := "You can make a reservation for 1 to 8 guests. How many guests?"
  const DatePrompt := "What date would you like to make your reservation?"
  const BadDatePrompt := "I did not understand your reservation date. When would you like to make your reservation?"
  const TimePrompt := "What time do you plan to dine?"
  const EmailPrompt := "Please provide your email address."
  const BadEmailPrompt := "Please provide a valid email address."

  function UnsupportedCity(city: string): string
  {
    "We currently do not support '" + city + "'. Can you try a different city?"
  }

  function UnsupportedCuisine(cuisine: string): string
  {
    "We currently do not support '" + cuisine + "'. Can you try a different cuisine?"
  }

  /** The prompt asked when a field has no value at all. */
  function MissingPrompt(f: Field): string
  {
    match f
    case Location => LocationPrompt
    case CuisineType => CuisinePrompt
    case NoOfPeople => PeoplePrompt
    case Date => DatePrompt
    case Time => TimePrompt
    case Email => EmailPrompt
  }

  // ---------------------------------------------------------------- validation

  datatype ValidationResult = Valid | Invalid(violatedSlot: Field, message: string)

  /** The prompt for field `f` when its check fails, `None` when it passes. `isDate` is
      `!isNaN(Date.parse(date))`. */
  function Check(slots: Slots, isDate: string -> bool, f: Field): (r: Option<string>)
    ensures r.None? ==> Resolve(slots, Key(f)).Some?
  {
    var v := Resolve(slots, Key(f));
    match f
    case Location =>
      if v.None? then Some(LocationPrompt)
      else if !IsValidCity(v.value) then Some(UnsupportedCity(v.value))
      else None
    case CuisineType =>
      if v.None? then Some(CuisinePrompt)
      else if !IsValidCuisine(v.value) then Some(UnsupportedCuisine(v.value))
      else None
    case NoOfPeople =>
      var count := SafeInt(v);
      if count.None? || count.value == 0 then Some(PeoplePrompt)
      else if count.value < 1 || count.value > 8 then Some(PartyRangePrompt)
      else None
    case Date =>
      if v.None? then Some(DatePrompt)
      else if !isDate(v.value) then Some(BadDatePrompt)
      else None
    case Time =>
      if v.None? then Some(TimePrompt) else None
    case Email =>
      if v.None? then Some(EmailPrompt)
      else if !IsValidEmail(v.value) then Some(BadEmailPrompt)
      else None
  }

  /** Runs the checks of `fields` in order and stops at the first that fails. */
  function FirstFailure(slots: Slots, isDate: string -> bool, fields: seq<Field>): (r: ValidationResult)
    ensures fields == [] ==> r == Valid
    ensures r.Invalid? ==> Check(slots, isDate, r.violatedSlot) == Some(r.message)
  {
    if fields == [] then Valid
    else match Check(slots, isDate, fields[0])
      case Some(m) => Invalid(fields[0], m)
      case None => FirstFailure(slots, isDate, fields[1..])
  }

  /** `validateDining`. */
  function ValidateDining(slots: Slots, isDate: string -> bool): (r: ValidationResult)
    ensures r.Invalid? ==> Check(slots, isDate, r.violatedSlot) == Some(r.message)
    ensures Resolve(slots, "Location").None? ==> r == Invalid(Location, LocationPrompt)
  {
    FirstFailure(slots, isDate, FieldOrder)
  }

  lemma {:induction false} FirstFailureIsFirst(slots: Slots, isDate: string -> bool, fields: seq<Field>)
    ensures FirstFailure(slots, isDate, fields).Valid? <==>
              forall k :: 0 <= k < |fields| ==> Check(slots, isDate, fields[k]).None?
    ensures forall f, m :: FirstFailure(slots, isDate, fields) == Invalid(f, m) <==>
              exists k :: 0 <= k < |fields| && fields[k] == f && Check(slots, isDate, f) == Some(m) &&
                forall j :: 0 <= j < k ==> Check(slots, isDate, fields[j]).None?
  {
    FirstFailureValid(slots, isDate, fields);
    if FirstFailure(slots, isDate, fields).Invalid? {
      var k := FirstFailureAt(slots, isDate, fields);
    }
    forall f, m | exists k :: 0 <= k < |fields| && fields[k] == f && Check(slots, isDate, f) == Some(m) &&
                    forall j :: 0 <= j < k ==> Check(slots, isDate, fields[j]).None?
      ensures FirstFailure(slots, isDate, fields) == Invalid(f, m)
    {
      var k :| 0 <= k < |fields| && fields[k] == f && Check(slots, isDate, f) == Some(m) &&
               forall j :: 0 <= j < k ==> Check(slots, isDate, fields[j]).None?;
      FailureAtIsReported(slots, isDate, fields, k);
    }
  }

  /** The checks all pass exactly when the run of them passes. */
  lemma {:induction false} FirstFailureValid(slots: Slots, isDate: string -> bool, fields: seq<Field>)
    ensures FirstFailure(slots, isDate, fields).Valid? <==>
              forall k :: 0 <= k < |fields| ==> Check(slots, isDate, fields[k]).None?
  {
    if fields != [] {
      FirstFailureValid(slots, isDate, fields[1..]);
      assert forall k :: 0 < k < |fields| ==> fields[k] == fields[1..][k - 1];
    }
  }

  /** A failed run names the field of a failing check, with its prompt, after only passing checks. */
  lemma {:induction false} FirstFailureAt(slots: Slots, isDate: string -> bool, fields: seq<Field>) returns (k: nat)
    requires FirstFailure(slots, isDate, fields).Invalid?
    ensures k < |fields| && fields[k] == FirstFailure(slots, isDate, fields).violatedSlot
    ensures Check(slots, isDate, fields[k]) == Some(FirstFailure(slots, isDate, fields).message)
    ensures forall j :: 0 <= j < k ==> Check(slots, isDate, fields[j]).None?
  {
    if Check(slots, isDate, fields[0]).Some? {
      k := 0;
    } else {
      var i := FirstFailureAt(slots, isDate, fields[1..]);
      k := i + 1;
      assert forall j :: 0 < j <= k ==> fields[j] == fields[1..][j - 1];
    }
  }

  /** The first failing check is the one reported. */
  lemma {:induction false} FailureAtIsReported(slots: Slots, isDate: string -> bool, fields: seq<Field>, k: nat)
    requires k < |fields| && Check(slots, isDate, fields[k]).Some?
    requires forall j :: 0 <= j < k ==> Check(slots, isDate, fields[j]).None?
    ensures FirstFailure(slots, isDate, fields) == Invalid(fields[k], Check(slots, isDate, fields[k]).value)
  {
    if k > 0 {
      assert forall j :: 0 <= j < k - 1 ==> fields[1..][j] == fields[j + 1];
      FailureAtIsReported(slots, isDate, fields[1..], k - 1);
    }
  }

  /** The validator reports the first field, in the order Location, CuisineType, NoOfPeople, Date, Time,
      Email, whose check fails, with that check's prompt, and Valid only when all six pass. */
  lemma ValidateReportsFirstFailure(slots: Slots, isDate: string -> bool)
    ensures ValidateDining(slots, isDate).Valid? <==>
              forall k :: 0 <= k < |FieldOrder| ==> Check(slots, isDate, FieldOrder[k]).None?
    ensures forall f, m :: ValidateDining(slots, isDate) == Invalid(f, m) <==>
              exists k :: 0 <= k < |FieldOrder| && FieldOrder[k] == f && Check(slots, isDate, f) == Some(m) &&
                forall j :: 0 <= j < k ==> Check(slots, isDate, FieldOrder[j]).None?
  {
    FirstFailureIsFirst(slots, isDate, FieldOrder);
  }

  /** A valid request has a supported city and cuisine, a party of 1 to 8, a parseable date, a time and a
      well-formed e-mail address, and a request with all of these is valid. */
  lemma ValidMeansEveryFieldAccepted(slots: Slots, isDate: string -> bool)
    ensures ValidateDining(slots, isDate).Valid? <==>
      && Resolve(slots, "Location").Some? && Lower(Resolve(slots, "Location").value) in Cities
      && Resolve(slots, "CuisineType").Some? && Lower(Resolve(slots, "CuisineType").value) in Cuisines
      && SafeInt(Resolve(slots, "NoOfPeople")).Some?
      && 1 <= SafeInt(Resolve(slots, "NoOfPeople")).value <= 8
      && Resolve(slots, "Date").Some? && isDate(Resolve(slots, "Date").value)
      && Resolve(slots, "Time").Some?
      && Resolve(slots, "Email").Some? && EmailShape(Resolve(slots, "Email").value)
  {
    ValidIffAllSixPass(slots, isDate);
    AcceptedFields(slots, isDate);
    var e := Resolve(slots, "Email");
    if e.Some? {
      EmailAutomatonMatchesShape(e.value);
    }
  }

  /** The run of the six checks in their fixed order passes exactly when each of them passes. */
  lemma ValidIffAllSixPass(slots: Slots, isDate: string -> bool)
    ensures ValidateDining(slots, isDate).Valid? <==>
      && Check(slots, isDate, Location).None? && Check(slots, isDate, CuisineType).None?
      && Check(slots, isDate, NoOfPeople).None? && Check(slots, isDate, Date).None?
      && Check(slots, isDate, Time).None? && Check(slots, isDate, Email).None?
  {
    assert FieldOrder[0] == Location && FieldOrder[1] == CuisineType && FieldOrder[2] == NoOfPeople;
    assert FieldOrder[3] == Date && FieldOrder[4] == Time && FieldOrder[5] == Email;
    FirstFailureValid(slots, isDate, FieldOrder);
  }

  /** What each of the six checks accepts. */
  lemma AcceptedFields(slots: Slots, isDate: string -> bool)
    ensures Check(slots, isDate, Location).None? <==>
      Resolve(slots, "Location").Some? && Lower(Resolve(slots, "Location").value) in Cities
    ensures Check(slots, isDate, CuisineType).None? <==>
      Resolve(slots, "CuisineType").Some? && Lower(Resolve(slots, "CuisineType").value) in Cuisines
    ensures Check(slots, isDate, NoOfPeople).None? <==>
      SafeInt(Resolve(slots, "NoOfPeople")).Some? && 1 <= SafeInt(Resolve(slots, "NoOfPeople")).value <= 8
    ensures Check(slots, isDate, Date).None? <==>
      Resolve(slots, "Date").Some? && isDate(Resolve(slots, "Date").value)
    ensures Check(slots, isDate, Time).None? <==> Resolve(slots, "Time").Some?
    ensures Check(slots, isDate, Email).None? <==>
      Resolve(slots, "Email").Some? && IsValidEmail(Resolve(slots, "Email").value)
  {
    PartySizeRule(slots, isDate);
  }

  /** Party size: a missing, unparseable or zero count asks how many people; any other count outside
      1..8 (negative ones included) gets the range prompt; 1..8 passes. */
  lemma PartySizeRule(slots: Slots, isDate: string -> bool)
    ensures var count := SafeInt(Resolve(slots, "NoOfPeople"));
      && (Check(slots, isDate, NoOfPeople) == Some(PeoplePrompt) <==> count.None? || count.value == 0)
      && (Check(slots, isDate, NoOfPeople) == Some(PartyRangePrompt) <==>
            count.Some? && count.value != 0 && (count.value < 1 || count.value > 8))
      && (Check(slots, isDate, NoOfPeople).None? <==> count.Some? && 1 <= count.value <= 8)
  {
    assert PeoplePrompt != PartyRangePrompt;
  }

  /** The check of a field depends on that field's slot alone. */
  lemma {:induction false} CheckReadsOwnSlot(s1: Slots, s2: Slots, isDate: string -> bool, f: Field)
    requires ValueOf(s1, Key(f)) == ValueOf(s2, Key(f))
    ensures Check(s1, isDate, f) == Check(s2, isDate, f)
  {
    assert Resolve(s1, Key(f)) == Resolve(s2, Key(f));
  }

  /** A field that is missing after all earlier fields passed is reported with its "missing" prompt. */
  lemma MissingFieldReported(slots: Slots, isDate: string -> bool, k: nat)
    requires k < |FieldOrder|
    requires forall j :: 0 <= j < k ==> Check(slots, isDate, FieldOrder[j]).None?
    requires Resolve(slots, Key(FieldOrder[k])).None?
    ensures ValidateDining(slots, isDate) == Invalid(FieldOrder[k], MissingPrompt(FieldOrder[k]))
  {
    ValidateReportsFirstFailure(slots, isDate);
    assert Check(slots, isDate, FieldOrder[k]) == Some(MissingPrompt(FieldOrder[k]));
  }

  /** The validator's checks written out as the cascade of the source. */
  lemma ValidateCascade(slots: Slots, isDate: string -> bool)
    ensures ValidateDining(slots, isDate) ==
      if Check(slots, isDate, Location).Some? then Invalid(Location, Check(slots, isDate, Location).value)
      else if Check(slots, isDate, CuisineType).Some? then Invalid(CuisineType, Check(slots, isDate, CuisineType).value)
      else if Check(slots, isDate, NoOfPeople).Some? then Invalid(NoOfPeople, Check(slots, isDate, NoOfPeople).value)
      else if Check(slots, isDate, Date).Some? then Invalid(Date, Check(slots, isDate, Date).value)
      else if Check(slots, isDate, Time).Some? then Invalid(Time, Check(slots, isDate, Time).value)
      else if Check(slots, isDate, Email).Some? then Invalid(Email, Check(slots, isDate, Email).value)
      else Valid
  {
    var o := FieldOrder;
    FirstFailureStep(slots, isDate, o);
    FirstFailureStep(slots, isDate, o[1..]);
    FirstFailureStep(slots, isDate, o[2..]);
    FirstFailureStep(slots, isDate, o[3..]);
    FirstFailureStep(slots, isDate, o[4..]);
    FirstFailureStep(slots, isDate, o[5..]);
    assert o[1..][1..] == o[2..] && o[2..][1..] == o[3..] && o[3..][1..] == o[4..];
    assert o[4..][1..] == o[5..] && o[5..][1..] == [];
  }

  lemma FirstFailureStep(slots: Slots, isDate: string -> bool, fields: seq<Field>)
    requires fields != []
    ensures FirstFailure(slots, isDate, fields) ==
      if Check(slots, isDate, fields[0]).Some? then Invalid(fields[0], Check(slots, isDate, fields[0]).value)
      else FirstFailure(slots, isDate, fields[1..])
  {
  }

  /** A party size outside 1..8 makes an otherwise valid request invalid on NoOfPeople. */
  lemma PartySizeOutOfRangeRejected(slots: Slots, isDate: string -> bool)
    requires Check(slots, isDate, Location).None? && Check(slots, isDate, CuisineType).None?
    requires SafeInt(Resolve(slots, "NoOfPeople")).Some?
    requires var n := SafeInt(Resolve(slots, "NoOfPeople")).value; n < 1 || n > 8
    ensures ValidateDining(slots, isDate).Invalid?
    ensures ValidateDining(slots, isDate).violatedSlot == NoOfPeople
  {
    ValidateCascade(slots, isDate);
    assert Check(slots, isDate, NoOfPeople).Some?;
  }

  /** Clearing the slot the validator rejected makes the next pass ask for that same field as missing:
      the earlier fields still pass, and a `null` slot resolves to nothing. */
  lemma ClearedSlotIsReElicited(slots: Slots, isDate: string -> bool)
    requires ValidateDining(slots, isDate).Invalid?
    ensures var f := ValidateDining(slots, isDate).violatedSlot;
      ValidateDining(slots[Key(f) := Null], isDate) == Invalid(f, MissingPrompt(f))
  {
    var f := ValidateDining(slots, isDate).violatedSlot;
    var m := ValidateDining(slots, isDate).message;
    var cleared := slots[Key(f) := Null];
    ValidateReportsFirstFailure(slots, isDate);
    var k :| 0 <= k < |FieldOrder| && FieldOrder[k] == f && Check(slots, isDate, f) == Some(m) &&
             forall j :: 0 <= j < k ==> Check(slots, isDate, FieldOrder[j]).None?;
    forall j | 0 <= j < k
      ensures Check(cleared, isDate, FieldOrder[j]).None?
    {
      assert FieldOrder[j] != f;
      KeyInjective(FieldOrder[j], f);
      CheckReadsOwnSlot(slots, cleared, isDate, FieldOrder[j]);
    }
    assert ValueOf(cleared, Key(f)).None?;
    MissingFieldReported(cleared, isDate, k);
  }
}
