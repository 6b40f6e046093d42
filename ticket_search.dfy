/** The ticket history screen: the loaded tickets, the list the advanced search
    shows, and the chain of optional filters that produces it. */
module TicketSearch {
  import opened Wrappers
  import opened JsText
  import opened SeqFacts

  /** A ticket as the backend returns it. Dates are millisecond timestamps, `None` when
      the date is absent (`undefined`) or does not parse (JavaScript's invalid date); a
      `null` date converts to the epoch and is `Some(0)`. Fares are in cents, `None` when
      missing or not a number. */
  datatype Ticket = Ticket(
    ticketNumber: Option<string>,
    routeNumber: Option<string>,
    passengerName: Option<string>,
    passengerType: Option<string>,
    paymentMethod: Option<string>,
    ticketDate: Option<int>,
    fareAmount: Option<int>)

  /** A date or fare field of the search form: empty, or what parsing it gives, a number
      or the invalid value that every comparison rejects. */
  datatype Bound = Unset | Parsed(value: int) | Unparseable

  /** The search form. An empty text field is an inactive filter. */
  datatype Filters = Filters(
    ticketNumber: string,
    routeNumber: string,
    passengerName: string,
    passengerType: string,
    paymentMethod: string,
    dateFrom: Bound,
    dateTo: Bound,
    minFare: Bound,
    maxFare: Bound)

  /** The record the search form resets to: every field empty. */
  const NoFilters := Filters("", "", "", "", "", Unset, Unset, Unset, Unset)

  /** `dateTo` is read as the last second of that day: 23:59:59 after its midnight. */
  const EndOfDayMs := 86_399_000

  /** `parseFloat(fare_amount) || 0`: a missing or unparsable fare counts as zero. */
  function FareOf(t: Ticket): int {
    if t.fareAmount.Some? then t.fareAmount.value else 0
  }

  /** One filter of the chain, with what it compares against. A date or fare limit is
      `None` when the form's value did not parse. */
  datatype Criterion =
    | TicketNumberHas(query: string)
    | RouteHas(query: string)
    | NameHas(query: string)
    | TypeIs(value: string)
    | PaymentIs(value: string)
    | DateFrom(limit: Option<int>)
    | DateTo(limit: Option<int>)
    | MinFare(limit: Option<int>)
    | MaxFare(limit: Option<int>)

  /** Whether a ticket passes one filter: case-insensitive substring tests on the ticket
      number and passenger name, a case-sensitive one on the route, exact equality on
      passenger type and payment method, inclusive bounds on date and fare. A ticket
      without the tested field fails, and so does every ticket against an invalid limit. */
  predicate Holds(c: Criterion, t: Ticket) {
    match c
    case TicketNumberHas(q) => t.ticketNumber.Some? && Contains(Lower(t.ticketNumber.value), Lower(q))
    case RouteHas(q) => t.routeNumber.Some? && Contains(t.routeNumber.value, q)
    case NameHas(q) => t.passengerName.Some? && Contains(Lower(t.passengerName.value), Lower(q))
    case TypeIs(v) => t.passengerType == Some(v)
    case PaymentIs(v) => t.paymentMethod == Some(v)
    case DateFrom(limit) => limit.Some? && t.ticketDate.Some? && t.ticketDate.value >= limit.value
    case DateTo(limit) => limit.Some? && t.ticketDate.Some? && t.ticketDate.value <= limit.value
    case MinFare(limit) => limit.Some? && FareOf(t) >= limit.value
    case MaxFare(limit) => limit.Some? && FareOf(t) <= limit.value
  }

  /** `tickets.filter(...)` with one filter. */
  function Keep(s: seq<Ticket>, c: Criterion): (r: seq<Ticket>)
    ensures |r| <= |s|
    ensures forall t :: t in r <==> t in s && Holds(c, t)
  {
    if s == [] then []
    else (if Holds(c, s[0]) then [s[0]] else []) + Keep(s[1..], c)
  }

  /** The limit a bound gives: its value, or `None` for the invalid date or number. */
  function Limit(b: Bound): Option<int> {
    if b.Parsed? then Some(b.value) else None
  }

  /** The end-of-day limit of `dateTo`. */
  function DayEnd(b: Bound): Option<int> {
    if b.Parsed? then Some(b.value + EndOfDayMs) else None
  }

  /** One `if (field) filtered = filtered.filter(...)` of the chain. */
  function Narrow(s: seq<Ticket>, active: bool, c: Criterion): seq<Ticket> {
    if active then Keep(s, c) else s
  }

  /** `handleAdvancedSearch`: starting from all the tickets, each non-empty field of the
      form narrows the list in turn, in the order the form lists them. */
  function Search(tickets: seq<Ticket>, f: Filters): seq<Ticket> {
    var s1 := Narrow(tickets, f.ticketNumber != "", TicketNumberHas(f.ticketNumber));
    var s2 := Narrow(s1, f.routeNumber != "", RouteHas(f.routeNumber));
    var s3 := Narrow(s2, f.passengerName != "", NameHas(f.passengerName));
    var s4 := Narrow(s3, f.passengerType != "", TypeIs(f.passengerType));
    var s5 := Narrow(s4, f.paymentMethod != "", PaymentIs(f.paymentMethod));
    var s6 := Narrow(s5, !f.dateFrom.Unset?, DateFrom(Limit(f.dateFrom)));
    var s7 := Narrow(s6, !f.dateTo.Unset?, DateTo(DayEnd(f.dateTo)));
    var s8 := Narrow(s7, !f.minFare.Unset?, MinFare(Limit(f.minFare)));
    Narrow(s8, !f.maxFare.Unset?, MaxFare(Limit(f.maxFare)))
  }

  // ---------------------------------------------------------------------------
  // The reference: one conjunction

  /** A ticket the search keeps: it satisfies every filter whose field is filled in. */
  predicate Matches(f: Filters, t: Ticket) {
    && (f.ticketNumber != "" ==>
          t.ticketNumber.Some? && Contains(Lower(t.ticketNumber.value), Lower(f.ticketNumber)))
    && (f.routeNumber != "" ==> t.routeNumber.Some? && Contains(t.routeNumber.value, f.routeNumber))
    && (f.passengerName != "" ==>
          t.passengerName.Some? && Contains(Lower(t.passengerName.value), Lower(f.passengerName)))
    && (f.passengerType != "" ==> t.passengerType == Some(f.passengerType))
    && (f.paymentMethod != "" ==> t.paymentMethod == Some(f.paymentMethod))
    && (!f.dateFrom.Unset? ==>
          f.dateFrom.Parsed? && t.ticketDate.Some? && t.ticketDate.value >= f.dateFrom.value)
    && (!f.dateTo.Unset? ==>
          f.dateTo.Parsed? && t.ticketDate.Some? && t.ticketDate.value <= f.dateTo.value + EndOfDayMs)
    && (!f.minFare.Unset? ==> f.minFare.Parsed? && FareOf(t) >= f.minFare.value)
    && (!f.maxFare.Unset? ==> f.maxFare.Parsed? && FareOf(t) <= f.maxFare.value)
  }

  /** `s` with exactly the tickets that satisfy `f`, in their order. */
  function FilterMatches(s: seq<Ticket>, f: Filters): (r: seq<Ticket>)
    ensures forall t :: t in r <==> t in s && Matches(f, t)
  {
    if s == [] then []
    else (if Matches(f, s[0]) then [s[0]] else []) + FilterMatches(s[1..], f)
  }

  function Opt(active: bool, c: Criterion): seq<Criterion> {
    if active then [c] else []
  }

  /** The active filters, in the order the search applies them. */
  function Criteria(f: Filters): seq<Criterion> {
    Opt(f.ticketNumber != "", TicketNumberHas(f.ticketNumber))
    + Opt(f.routeNumber != "", RouteHas(f.routeNumber))
    + Opt(f.passengerName != "", NameHas(f.passengerName))
    + Opt(f.passengerType != "", TypeIs(f.passengerType))
    + Opt(f.paymentMethod != "", PaymentIs(f.paymentMethod))
    + Opt(!f.dateFrom.Unset?, DateFrom(Limit(f.dateFrom)))
    + Opt(!f.dateTo.Unset?, DateTo(DayEnd(f.dateTo)))
    + Opt(!f.minFare.Unset?, MinFare(Limit(f.minFare)))
    + Opt(!f.maxFare.Unset?, MaxFare(Limit(f.maxFare)))
  }

  predicate AllHold(cs: seq<Criterion>, t: Ticket) {
    forall i :: 0 <= i < |cs| ==> Holds(cs[i], t)
  }

  /** The tickets of `s` that pass every filter of `cs`, in their order. */
  function Select(s: seq<Ticket>, cs: seq<Criterion>): (r: seq<Ticket>)
    ensures forall t :: t in r <==> t in s && AllHold(cs, t)
  {
    if s == [] then []
    else (if AllHold(cs, s[0]) then [s[0]] else []) + Select(s[1..], cs)
  }

  /** Applying the filters one after the other, in the order of `cs`. */
  function Chain(s: seq<Ticket>, cs: seq<Criterion>): seq<Ticket>
    decreases |cs|
  {
    if cs == [] then s else Chain(Keep(s, cs[0]), cs[1..])
  }

  /** Narrowing by one more filter is selecting by one more criterion. */
  lemma {:induction false} SelectThenKeep(s: seq<Ticket>, cs: seq<Criterion>, c: Criterion)
    ensures Keep(Select(s, cs), c) == Select(s, cs + [c])
    decreases |s|
  {
    if s != [] {
      SelectThenKeep(s[1..], cs, c);
      var x := s[0];
      assert AllHold(cs + [c], x) <==> AllHold(cs, x) && Holds(c, x) by {
        assert forall i :: 0 <= i < |cs| ==> (cs + [c])[i] == cs[i];
        assert (cs + [c])[|cs|] == c;
      }
      var head := if AllHold(cs, x) then [x] else [];
      KeepAppend(head, Select(s[1..], cs), c);
    }
  }

  lemma {:induction false} KeepAppend(a: seq<Ticket>, b: seq<Ticket>, c: Criterion)
    ensures Keep(a + b, c) == Keep(a, c) + Keep(b, c)
    decreases |a|
  {
    if a != [] {
      assert (a + b)[0] == a[0] && (a + b)[1..] == a[1..] + b;
      KeepAppend(a[1..], b, c);
      Associative(if Holds(c, a[0]) then [a[0]] else [], Keep(a[1..], c), Keep(b, c));
    } else {
      assert a + b == b;
    }
  }

  /** Narrowing by one filter first and then by others is selecting by all of them. */
  lemma {:induction false} KeepThenSelect(s: seq<Ticket>, c: Criterion, cs: seq<Criterion>)
    ensures Select(Keep(s, c), cs) == Select(s, [c] + cs)
    decreases |s|
  {
    if s != [] {
      KeepThenSelect(s[1..], c, cs);
      var x := s[0];
      assert AllHold([c] + cs, x) <==> Holds(c, x) && AllHold(cs, x) by {
        assert forall i :: 0 <= i < |cs| ==> ([c] + cs)[i + 1] == cs[i];
        assert ([c] + cs)[0] == c;
      }
      var head := if Holds(c, x) then [x] else [];
      SelectAppend(head, Keep(s[1..], c), cs);
    }
  }

  lemma {:induction false} SelectAppend(a: seq<Ticket>, b: seq<Ticket>, cs: seq<Criterion>)
    ensures Select(a + b, cs) == Select(a, cs) + Select(b, cs)
    decreases |a|
  {
    if a != [] {
      assert (a + b)[0] == a[0] && (a + b)[1..] == a[1..] + b;
      SelectAppend(a[1..], b, cs);
      Associative(if AllHold(cs, a[0]) then [a[0]] else [], Select(a[1..], cs), Select(b, cs));
    } else {
      assert a + b == b;
    }
  }

  lemma SelectNone(s: seq<Ticket>)
    ensures Select(s, []) == s
    decreases |s|
  {
    if s != [] {
      SelectNone(s[1..]);
      assert [s[0]] + s[1..] == s;
    }
  }

  /** Applying filters one by one keeps exactly the tickets that pass all of them. */
  lemma {:induction false} ChainSelects(s: seq<Ticket>, cs: seq<Criterion>)
    ensures Chain(s, cs) == Select(s, cs)
    decreases |cs|
  {
    if cs == [] {
      SelectNone(s);
    } else {
      ChainSelects(Keep(s, cs[0]), cs[1..]);
      KeepThenSelect(s, cs[0], cs[1..]);
      assert [cs[0]] + cs[1..] == cs;
    }
  }

  /** Only which filters are applied matters, not their order or repetition. */
  lemma {:induction false} SelectSameFilters(s: seq<Ticket>, cs: seq<Criterion>, ds: seq<Criterion>)
    requires forall c :: c in cs <==> c in ds
    ensures Select(s, cs) == Select(s, ds)
    decreases |s|
  {
    if s != [] {
      SelectSameFilters(s[1..], cs, ds);
      assert AllHold(cs, s[0]) <==> AllHold(ds, s[0]) by {
        if AllHold(cs, s[0]) {
          forall i | 0 <= i < |ds| ensures Holds(ds[i], s[0]) {
            assert ds[i] in cs;
            var j :| 0 <= j < |cs| && cs[j] == ds[i];
          }
        }
        if AllHold(ds, s[0]) {
          forall i | 0 <= i < |cs| ensures Holds(cs[i], s[0]) {
            assert cs[i] in ds;
            var j :| 0 <= j < |ds| && ds[j] == cs[i];
          }
        }
      }
    }
  }

  lemma NarrowSelect(s: seq<Ticket>, cs: seq<Criterion>, active: bool, c: Criterion)
    ensures Narrow(Select(s, cs), active, c) == Select(s, cs + Opt(active, c))
  {
    if active {
      SelectThenKeep(s, cs, c);
    } else {
      assert cs + Opt(active, c) == cs;
    }
  }

  /** The search keeps exactly the tickets that pass every active filter. */
  lemma SearchSelects(tickets: seq<Ticket>, f: Filters)
    ensures Search(tickets, f) == Select(tickets, Criteria(f))
  {
    var c1 := Opt(f.ticketNumber != "", TicketNumberHas(f.ticketNumber));
    var c2 := c1 + Opt(f.routeNumber != "", RouteHas(f.routeNumber));
    var c3 := c2 + Opt(f.passengerName != "", NameHas(f.passengerName));
    var c4 := c3 + Opt(f.passengerType != "", TypeIs(f.passengerType));
    var c5 := c4 + Opt(f.paymentMethod != "", PaymentIs(f.paymentMethod));
    var c6 := c5 + Opt(!f.dateFrom.Unset?, DateFrom(Limit(f.dateFrom)));
    var c7 := c6 + Opt(!f.dateTo.Unset?, DateTo(DayEnd(f.dateTo)));
    var c8 := c7 + Opt(!f.minFare.Unset?, MinFare(Limit(f.minFare)));
    SelectNone(tickets);
    NarrowSelect(tickets, [], f.ticketNumber != "", TicketNumberHas(f.ticketNumber));
    assert [] + c1 == c1;
    NarrowSelect(tickets, c1, f.routeNumber != "", RouteHas(f.routeNumber));
    NarrowSelect(tickets, c2, f.passengerName != "", NameHas(f.passengerName));
    NarrowSelect(tickets, c3, f.passengerType != "", TypeIs(f.passengerType));
    NarrowSelect(tickets, c4, f.paymentMethod != "", PaymentIs(f.paymentMethod));
    NarrowSelect(tickets, c5, !f.dateFrom.Unset?, DateFrom(Limit(f.dateFrom)));
    NarrowSelect(tickets, c6, !f.dateTo.Unset?, DateTo(DayEnd(f.dateTo)));
    NarrowSelect(tickets, c7, !f.minFare.Unset?, MinFare(Limit(f.minFare)));
    NarrowSelect(tickets, c8, !f.maxFare.Unset?, MaxFare(Limit(f.maxFare)));
  }

  lemma AllHoldAppend(a: seq<Criterion>, b: seq<Criterion>, t: Ticket)
    ensures AllHold(a + b, t) <==> AllHold(a, t) && AllHold(b, t)
  {
    assert forall i :: 0 <= i < |a| ==> (a + b)[i] == a[i];
    assert forall i :: 0 <= i < |b| ==> (a + b)[|a| + i] == b[i];
  }

  lemma AllHoldOpt(active: bool, c: Criterion, t: Ticket)
    ensures AllHold(Opt(active, c), t) <==> (active ==> Holds(c, t))
  {
    if active {
      assert Opt(active, c)[0] == c;
    }
  }

  /** The written-out conjunction is the conjunction of the active filters. */
  lemma MatchesByFilter(f: Filters, t: Ticket)
    ensures Matches(f, t) <==>
      && (f.ticketNumber != "" ==> Holds(TicketNumberHas(f.ticketNumber), t))
      && (f.routeNumber != "" ==> Holds(RouteHas(f.routeNumber), t))
      && (f.passengerName != "" ==> Holds(NameHas(f.passengerName), t))
      && (f.passengerType != "" ==> Holds(TypeIs(f.passengerType), t))
      && (f.paymentMethod != "" ==> Holds(PaymentIs(f.paymentMethod), t))
      && (!f.dateFrom.Unset? ==> Holds(DateFrom(Limit(f.dateFrom)), t))
      && (!f.dateTo.Unset? ==> Holds(DateTo(DayEnd(f.dateTo)), t))
      && (!f.minFare.Unset? ==> Holds(MinFare(Limit(f.minFare)), t))
      && (!f.maxFare.Unset? ==> Holds(MaxFare(Limit(f.maxFare)), t))
  {
  }

  lemma AllHoldCriteria(f: Filters, t: Ticket)
    ensures AllHold(Criteria(f), t) <==>
      && (f.ticketNumber != "" ==> Holds(TicketNumberHas(f.ticketNumber), t))
      && (f.routeNumber != "" ==> Holds(RouteHas(f.routeNumber), t))
      && (f.passengerName != "" ==> Holds(NameHas(f.passengerName), t))
      && (f.passengerType != "" ==> Holds(TypeIs(f.passengerType), t))
      && (f.paymentMethod != "" ==> Holds(PaymentIs(f.paymentMethod), t))
      && (!f.dateFrom.Unset? ==> Holds(DateFrom(Limit(f.dateFrom)), t))
      && (!f.dateTo.Unset? ==> Holds(DateTo(DayEnd(f.dateTo)), t))
      && (!f.minFare.Unset? ==> Holds(MinFare(Limit(f.minFare)), t))
      && (!f.maxFare.Unset? ==> Holds(MaxFare(Limit(f.maxFare)), t))
  {
    var o1 := Opt(f.ticketNumber != "", TicketNumberHas(f.ticketNumber));
    var o2 := Opt(f.routeNumber != "", RouteHas(f.routeNumber));
    var o3 := Opt(f.passengerName != "", NameHas(f.passengerName));
    var o4 := Opt(f.passengerType != "", TypeIs(f.passengerType));
    var o5 := Opt(f.paymentMethod != "", PaymentIs(f.paymentMethod));
    var o6 := Opt(!f.dateFrom.Unset?, DateFrom(Limit(f.dateFrom)));
    var o7 := Opt(!f.dateTo.Unset?, DateTo(DayEnd(f.dateTo)));
    var o8 := Opt(!f.minFare.Unset?, MinFare(Limit(f.minFare)));
    var o9 := Opt(!f.maxFare.Unset?, MaxFare(Limit(f.maxFare)));
    AllHoldOpt(f.ticketNumber != "", TicketNumberHas(f.ticketNumber), t);
    AllHoldOpt(f.routeNumber != "", RouteHas(f.routeNumber), t);
    AllHoldOpt(f.passengerName != "", NameHas(f.passengerName), t);
    AllHoldOpt(f.passengerType != "", TypeIs(f.passengerType), t);
    AllHoldOpt(f.paymentMethod != "", PaymentIs(f.paymentMethod), t);
    AllHoldOpt(!f.dateFrom.Unset?, DateFrom(Limit(f.dateFrom)), t);
    AllHoldOpt(!f.dateTo.Unset?, DateTo(DayEnd(f.dateTo)), t);
    AllHoldOpt(!f.minFare.Unset?, MinFare(Limit(f.minFare)), t);
    AllHoldOpt(!f.maxFare.Unset?, MaxFare(Limit(f.maxFare)), t);
    AllHoldAppend(o1, o2, t);
    AllHoldAppend(o1 + o2, o3, t);
    AllHoldAppend(o1 + o2 + o3, o4, t);
    AllHoldAppend(o1 + o2 + o3 + o4, o5, t);
    AllHoldAppend(o1 + o2 + o3 + o4 + o5, o6, t);
    AllHoldAppend(o1 + o2 + o3 + o4 + o5 + o6, o7, t);
    AllHoldAppend(o1 + o2 + o3 + o4 + o5 + o6 + o7, o8, t);
    AllHoldAppend(o1 + o2 + o3 + o4 + o5 + o6 + o7 + o8, o9, t);
    assert Criteria(f) == o1 + o2 + o3 + o4 + o5 + o6 + o7 + o8 + o9;
  }

  /** The active filters all pass exactly on the tickets that match the form. */
  lemma AllHoldMatches(f: Filters, t: Ticket)
    ensures AllHold(Criteria(f), t) <==> Matches(f, t)
  {
    AllHoldCriteria(f, t);
    MatchesByFilter(f, t);
  }

  lemma {:induction false} SelectMatches(s: seq<Ticket>, f: Filters)
    ensures Select(s, Criteria(f)) == FilterMatches(s, f)
    decreases |s|
  {
    if s != [] {
      AllHoldMatches(f, s[0]);
      SelectMatches(s[1..], f);
    }
  }

  /** The chain of filters is one conjunction: the search keeps, in their order,
      exactly the loaded tickets that satisfy every filled-in field. */
  lemma SearchMatches(tickets: seq<Ticket>, f: Filters)
    ensures Search(tickets, f) == FilterMatches(tickets, f)
  {
    SearchSelects(tickets, f);
    SelectMatches(tickets, f);
  }

  /** Applying the same filters in any other order, even with repeats, gives the same list. */
  lemma OrderIrrelevant(tickets: seq<Ticket>, f: Filters, cs: seq<Criterion>)
    requires forall c :: c in cs <==> c in Criteria(f)
    ensures Chain(tickets, cs) == Search(tickets, f)
  {
    ChainSelects(tickets, cs);
    SelectSameFilters(tickets, cs, Criteria(f));
    SearchSelects(tickets, f);
  }

  /** `a` is `b` with some elements left out and the others in their order. */
  predicate SubsequenceOf(a: seq<Ticket>, b: seq<Ticket>)
    decreases |b|
  {
    if a == [] then true
    else if b == [] then false
    else (a[0] == b[0] && SubsequenceOf(a[1..], b[1..])) || SubsequenceOf(a, b[1..])
  }

  lemma {:induction false} SubsequenceRefl(s: seq<Ticket>)
    ensures SubsequenceOf(s, s)
    decreases |s|
  {
    if s != [] {
      SubsequenceRefl(s[1..]);
    }
  }

  lemma {:induction false} FilterMatchesSubsequence(s: seq<Ticket>, f: Filters)
    ensures SubsequenceOf(FilterMatches(s, f), s)
    ensures multiset(FilterMatches(s, f)) <= multiset(s)
    decreases |s|
  {
    if s != [] {
      FilterMatchesSubsequence(s[1..], f);
      var r := FilterMatches(s, f);
      var rest := FilterMatches(s[1..], f);
      assert s == [s[0]] + s[1..];
      if Matches(f, s[0]) {
        assert r[0] == s[0] && r[1..] == rest;
      } else {
        assert r == rest;
      }
    }
  }

  /** The searched list is a subsequence of the loaded list: order kept, nothing added,
      no ticket repeated more often than it was loaded. */
  lemma SearchSubsequence(tickets: seq<Ticket>, f: Filters)
    ensures SubsequenceOf(Search(tickets, f), tickets)
    ensures multiset(Search(tickets, f)) <= multiset(tickets)
    ensures forall t :: t in Search(tickets, f) <==> t in tickets && Matches(f, t)
  {
    SearchMatches(tickets, f);
    FilterMatchesSubsequence(tickets, f);
  }

  /** With the form reset, the search shows every loaded ticket. */
  lemma NoFiltersKeepsAll(tickets: seq<Ticket>)
    ensures Search(tickets, NoFilters) == tickets
  {
    assert Criteria(NoFilters) == [];
    SearchSelects(tickets, NoFilters);
    SelectNone(tickets);
  }

  /** A ticket without the field a text filter tests is never shown while that filter
      is filled in; neither is any ticket once a date or fare field fails to parse. */
  lemma MissingFieldExcluded(tickets: seq<Ticket>, f: Filters, t: Ticket)
    requires || (f.ticketNumber != "" && t.ticketNumber.None?)
             || (f.routeNumber != "" && t.routeNumber.None?)
             || (f.passengerName != "" && t.passengerName.None?)
             || (f.passengerType != "" && t.passengerType.None?)
             || (f.paymentMethod != "" && t.paymentMethod.None?)
             || ((!f.dateFrom.Unset? || !f.dateTo.Unset?) && t.ticketDate.None?)
             || f.dateFrom.Unparseable? || f.dateTo.Unparseable?
             || f.minFare.Unparseable? || f.maxFare.Unparseable?
    ensures t !in Search(tickets, f)
  {
    SearchSubsequence(tickets, f);
  }

  /** The ticket-number and passenger-name filters ignore letter case in the query. */
  lemma QueryCaseIgnored(tickets: seq<Ticket>, f: Filters)
    ensures Search(tickets, f)
      == Search(tickets, f.(ticketNumber := Lower(f.ticketNumber), passengerName := Lower(f.passengerName)))
  {
    var g := f.(ticketNumber := Lower(f.ticketNumber), passengerName := Lower(f.passengerName));
    LowerIdempotent(f.ticketNumber);
    LowerIdempotent(f.passengerName);
    assert f.ticketNumber != "" <==> g.ticketNumber != "";
    assert f.passengerName != "" <==> g.passengerName != "";
    forall t ensures Matches(f, t) <==> Matches(g, t) {
    }
    SearchMatches(tickets, f);
    SearchMatches(tickets, g);
    FilterSameMatches(tickets, f, g);
  }

  /** The route filter, unlike the two above, tests the query as typed: on a ticket for
      route `A1`, the query `A1` keeps it and the query `a1` drops it. */
  lemma RouteCaseMatters()
    ensures var t := Ticket(None, Some("A1"), None, None, None, None, None);
      && Search([t], NoFilters.(routeNumber := "A1")) == [t]
      && Search([t], NoFilters.(routeNumber := "a1")) == []
  {
  }

  lemma {:induction false} FilterSameMatches(s: seq<Ticket>, f: Filters, g: Filters)
    requires forall t :: Matches(f, t) <==> Matches(g, t)
    ensures FilterMatches(s, f) == FilterMatches(s, g)
    decreases |s|
  {
    if s != [] {
      FilterSameMatches(s[1..], f, g);
    }
  }

  /** Bounds are inclusive, and `dateTo` lets through the whole of its day. */
  lemma BoundsInclusive(f: Filters, t: Ticket)
    requires f.dateFrom.Parsed? && f.dateTo.Parsed? && f.minFare.Parsed? && f.maxFare.Parsed?
    requires f.ticketNumber == "" && f.routeNumber == "" && f.passengerName == ""
    requires f.passengerType == "" && f.paymentMethod == ""
    ensures Matches(f, t) <==>
      && t.ticketDate.Some?
      && f.dateFrom.value <= t.ticketDate.value <= f.dateTo.value + EndOfDayMs
      && f.minFare.value <= FareOf(t) <= f.maxFare.value
  {
  }

  // ---------------------------------------------------------------------------
  // The screen's state

  /** What `getTickets` gave: the response data, possibly absent, or a failure. */
  datatype LoadResponse = Loaded(data: Option<seq<Ticket>>) | LoadFailed

  class TicketHistory {
    var tickets: seq<Ticket>
    var filteredTickets: seq<Ticket>
    var loading: bool

    /** The shown list is always drawn from the loaded list, in its order. */
    ghost predicate Valid()
      reads this
    {
      SubsequenceOf(filteredTickets, tickets)
    }

    constructor ()
      ensures Valid() && tickets == [] && filteredTickets == [] && loading
    {
      tickets := [];
      filteredTickets := [];
      loading := true;
    }

    /** `loadTickets` up to the request. */
    method StartLoad()
      requires Valid()
      modifies this`loading
      ensures Valid() && loading
    {
      loading := true;
    }

    /** `loadTickets` after the response: both lists become the data, or empty when the
        data is absent; a failure leaves them alone. Loading ends either way. */
    method CompleteLoad(resp: LoadResponse)
      requires Valid()
      modifies this`tickets, this`filteredTickets, this`loading
      ensures Valid() && !loading
      ensures resp.Loaded? ==> tickets == resp.data.GetOr([]) && filteredTickets == tickets
      ensures resp.LoadFailed? ==> tickets == old(tickets) && filteredTickets == old(filteredTickets)
    {
      if resp.Loaded? {
        var data := resp.data.GetOr([]);
        tickets := data;
        filteredTickets := data;
        SubsequenceRefl(data);
      }
      loading := false;
    }

    /** `handleAdvancedSearch`: the shown list becomes the search over all loaded tickets,
        whatever was shown before. */
    method AdvancedSearch(f: Filters)
      requires Valid()
      modifies this`filteredTickets
      ensures Valid()
      ensures filteredTickets == FilterMatches(tickets, f)
    {
      SearchMatches(tickets, f);
      SearchSubsequence(tickets, f);
      filteredTickets := Search(tickets, f);
    }

    /** `handleResetSearch`: shows every loaded ticket again. */
    method ResetSearch()
      requires Valid()
      modifies this`filteredTickets
      ensures Valid() && filteredTickets == tickets
    {
      SubsequenceRefl(tickets);
      filteredTickets := tickets;
    }
  }
}
