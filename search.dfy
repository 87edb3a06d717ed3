/** `InventoryTools.search`: the listings query built from optional filters,
    newest first and cut to a limit, and the numbered spoken list made from
    its rows. */
module Search {
  import opened Nullable
  import opened Text
  import opened Query
  import opened Tables

  /** The tool's arguments; a filter whose argument is absent, empty or zero
      is not applied. */
  datatype SearchArgs = SearchArgs(
    category: Option<string>,
    make: Option<string>,
    minPrice: Option<int>,
    maxPrice: Option<int>,
    condition: Option<string>,
    limit: nat)

  predicate IsActive(l: Listing)
  {
    l.status == "active"
  }

  // One predicate per filter of the query. A null column never passes an
  // eq, ilike, gte or lte filter.

  predicate CategoryOk(l: Listing, a: SearchArgs)
  {
    TextGiven(a.category) ==> l.categorySlug == a.category
  }

  predicate MakeOk(l: Listing, a: SearchArgs)
  {
    TextGiven(a.make) ==> l.make.Some? && ContainsIgnoringCase(l.make.value, a.make.value)
  }

  predicate MinPriceOk(l: Listing, a: SearchArgs)
  {
    IntGiven(a.minPrice) ==> l.price.Some? && l.price.value >= a.minPrice.value
  }

  predicate MaxPriceOk(l: Listing, a: SearchArgs)
  {
    IntGiven(a.maxPrice) ==> l.price.Some? && l.price.value <= a.maxPrice.value
  }

  predicate ConditionOk(l: Listing, a: SearchArgs)
  {
    TextGiven(a.condition) ==> l.condition == a.condition
  }

  /** A listing the search may answer with: active, and meeting every filter
      whose argument is given. */
  predicate Matches(l: Listing, a: SearchArgs)
  {
    IsActive(l) && CategoryOk(l, a) && MakeOk(l, a) && MinPriceOk(l, a)
    && MaxPriceOk(l, a) && ConditionOk(l, a)
  }

  function CategoryFilter(a: SearchArgs): Listing -> bool { l => CategoryOk(l, a) }
  function MakeFilter(a: SearchArgs): Listing -> bool { l => MakeOk(l, a) }
  function MinPriceFilter(a: SearchArgs): Listing -> bool { l => MinPriceOk(l, a) }
  function MaxPriceFilter(a: SearchArgs): Listing -> bool { l => MaxPriceOk(l, a) }
  function ConditionFilter(a: SearchArgs): Listing -> bool { l => ConditionOk(l, a) }

  /** The rows the filtered query selects, in table order. */
  function Matching(listings: seq<Listing>, a: SearchArgs): seq<Listing>
  {
    Keep(Keep(Keep(Keep(Keep(Keep(listings, IsActive),
      CategoryFilter(a)), MakeFilter(a)), MinPriceFilter(a)), MaxPriceFilter(a)), ConditionFilter(a))
  }

  /** `.order("created_at", desc=True).limit(limit)` on the filtered rows. */
  function Results(listings: seq<Listing>, a: SearchArgs): seq<Listing>
  {
    Take(SortDescending(Matching(listings, a), CreatedAt), a.limit)
  }

  /** A listing is selected exactly when it is in the table and matches. */
  lemma MatchingIff(listings: seq<Listing>, a: SearchArgs, x: Listing)
    ensures x in Matching(listings, a) <==> x in listings && Matches(x, a)
  {
    var s0 := Keep(listings, IsActive);
    var s1 := Keep(s0, CategoryFilter(a));
    var s2 := Keep(s1, MakeFilter(a));
    var s3 := Keep(s2, MinPriceFilter(a));
    var s4 := Keep(s3, MaxPriceFilter(a));
    KeepMember(listings, IsActive, x);
    KeepMember(s0, CategoryFilter(a), x);
    KeepMember(s1, MakeFilter(a), x);
    KeepMember(s2, MinPriceFilter(a), x);
    KeepMember(s3, MaxPriceFilter(a), x);
    KeepMember(s4, ConditionFilter(a), x);
  }

  function MatchesFilter(a: SearchArgs): Listing -> bool { l => Matches(l, a) }

  /** The chained filters of the query select the same rows, in the same
      order, as one filter by their conjunction. */
  lemma MatchingIsOneFilter(listings: seq<Listing>, a: SearchArgs)
    ensures Matching(listings, a) == Keep(listings, MatchesFilter(a))
  {
    var f1 := (l: Listing) => IsActive(l) && CategoryOk(l, a);
    var f2 := (l: Listing) => f1(l) && MakeOk(l, a);
    var f3 := (l: Listing) => f2(l) && MinPriceOk(l, a);
    var f4 := (l: Listing) => f3(l) && MaxPriceOk(l, a);
    KeepBoth(listings, IsActive, CategoryFilter(a), f1);
    KeepBoth(listings, f1, MakeFilter(a), f2);
    KeepBoth(listings, f2, MinPriceFilter(a), f3);
    KeepBoth(listings, f3, MaxPriceFilter(a), f4);
    KeepBoth(listings, f4, ConditionFilter(a), MatchesFilter(a));
  }

  /** The query as the tool builds it: start from the active listings and
      narrow by each filter whose argument is given, then order and limit. */
  method RunQuery(listings: seq<Listing>, a: SearchArgs) returns (rows: seq<Listing>)
    ensures rows == Results(listings, a)
  {
    rows := Keep(listings, IsActive);
    if TextGiven(a.category) {
      rows := Keep(rows, CategoryFilter(a));
    } else {
      KeepAll(rows, CategoryFilter(a));
    }
    if TextGiven(a.make) {
      rows := Keep(rows, MakeFilter(a));
    } else {
      KeepAll(rows, MakeFilter(a));
    }
    if IntGiven(a.minPrice) {
      rows := Keep(rows, MinPriceFilter(a));
    } else {
      KeepAll(rows, MinPriceFilter(a));
    }
    if IntGiven(a.maxPrice) {
      rows := Keep(rows, MaxPriceFilter(a));
    } else {
      KeepAll(rows, MaxPriceFilter(a));
    }
    if TextGiven(a.condition) {
      rows := Keep(rows, ConditionFilter(a));
    } else {
      KeepAll(rows, ConditionFilter(a));
    }
    rows := Take(SortDescending(rows, CreatedAt), a.limit);
  }

  /** Every listing the search answers with is an active row of the table
      that meets every given filter. */
  lemma ResultsMatch(listings: seq<Listing>, a: SearchArgs, r: Listing)
    requires r in Results(listings, a)
    ensures r in listings && IsActive(r)
    ensures TextGiven(a.category) ==> r.categorySlug == a.category
    ensures TextGiven(a.make) ==> r.make.Some? && ContainsIgnoringCase(r.make.value, a.make.value)
    ensures IntGiven(a.minPrice) ==> r.price.Some? && r.price.value >= a.minPrice.value
    ensures IntGiven(a.maxPrice) ==> r.price.Some? && r.price.value <= a.maxPrice.value
    ensures TextGiven(a.condition) ==> r.condition == a.condition
  {
    var m := Matching(listings, a);
    var sorted := SortDescending(m, CreatedAt);
    assert r in sorted;
    assert r in multiset(sorted);
    MatchingIff(listings, a, r);
  }

  /** The search answers with at most `limit` listings, newest first, and
      with exactly `limit` of them when more rows match. */
  lemma ResultsNewestFirst(listings: seq<Listing>, a: SearchArgs)
    ensures Descending(Results(listings, a), CreatedAt)
    ensures |Results(listings, a)| <= a.limit
    ensures |Results(listings, a)| == if a.limit < |Matching(listings, a)| then a.limit else |Matching(listings, a)|
  {
    var sorted := SortDescending(Matching(listings, a), CreatedAt);
    SortedDescending(Matching(listings, a), CreatedAt);
    var r := Results(listings, a);
    assert forall i :: 0 <= i < |r| ==> r[i] == sorted[i];
  }

  /** A matching listing left out by the limit is no newer than any listing
      the search answers with. */
  lemma OmittedAreOlder(listings: seq<Listing>, a: SearchArgs, x: Listing)
    requires x in listings && Matches(x, a) && x !in Results(listings, a)
    ensures |Results(listings, a)| == a.limit
    ensures forall r :: r in Results(listings, a) ==> r.createdAt >= x.createdAt
  {
    var m := Matching(listings, a);
    SortedDescending(m, CreatedAt);
    MatchingIff(listings, a, x);
    assert x in multiset(SortDescending(m, CreatedAt));
    TakeKeepsLargest(SortDescending(m, CreatedAt), a.limit, CreatedAt, x);
  }

  /** When no more rows match than the limit allows, every one is answered. */
  lemma AllMatchesUnderLimit(listings: seq<Listing>, a: SearchArgs)
    requires |Matching(listings, a)| <= a.limit
    ensures multiset(Results(listings, a)) == multiset(Matching(listings, a))
  {
  }

  /** Two argument sets that give the same filters (an absent argument and
      an empty or zero one are the same: no filter) select the same listings. */
  predicate SameFilters(a: SearchArgs, b: SearchArgs)
  {
    a.limit == b.limit
    && (TextGiven(a.category) == TextGiven(b.category)) && (TextGiven(a.category) ==> a.category == b.category)
    && (TextGiven(a.make) == TextGiven(b.make)) && (TextGiven(a.make) ==> a.make == b.make)
    && (IntGiven(a.minPrice) == IntGiven(b.minPrice)) && (IntGiven(a.minPrice) ==> a.minPrice == b.minPrice)
    && (IntGiven(a.maxPrice) == IntGiven(b.maxPrice)) && (IntGiven(a.maxPrice) ==> a.maxPrice == b.maxPrice)
    && (TextGiven(a.condition) == TextGiven(b.condition)) && (TextGiven(a.condition) ==> a.condition == b.condition)
  }

  lemma SameFiltersSameResults(listings: seq<Listing>, a: SearchArgs, b: SearchArgs)
    requires SameFilters(a, b)
    ensures Results(listings, a) == Results(listings, b)
  {
    var s0 := Keep(listings, IsActive);
    KeepSame(s0, CategoryFilter(a), CategoryFilter(b));
    var s1 := Keep(s0, CategoryFilter(a));
    KeepSame(s1, MakeFilter(a), MakeFilter(b));
    var s2 := Keep(s1, MakeFilter(a));
    KeepSame(s2, MinPriceFilter(a), MinPriceFilter(b));
    var s3 := Keep(s2, MinPriceFilter(a));
    KeepSame(s3, MaxPriceFilter(a), MaxPriceFilter(b));
    var s4 := Keep(s3, MaxPriceFilter(a));
    KeepSame(s4, ConditionFilter(a), ConditionFilter(b));
  }

  /** `min_price=0` imposes no lower bound and `max_price=0` no upper bound:
      the search answers as if they were not passed. */
  lemma ZeroPriceIsNoBound(listings: seq<Listing>, a: SearchArgs)
    ensures Results(listings, a.(minPrice := Some(0))) == Results(listings, a.(minPrice := None))
    ensures Results(listings, a.(maxPrice := Some(0))) == Results(listings, a.(maxPrice := None))
  {
    SameFiltersSameResults(listings, a.(minPrice := Some(0)), a.(minPrice := None));
    SameFiltersSameResults(listings, a.(maxPrice := Some(0)), a.(maxPrice := None));
  }

  // ---- The spoken list ----

  // The fixed replies, written in pieces so that the verifier can read
  // their characters.
  const NoListingsReply := "No listings found matching your criteria."
    + " Would you like to try different filters?"
  const SearchTroubleReply := "I'm having trouble searching our"
    + " inventory right now. Would you like me"
    + " to take your information for a callback?"

  /** A text column as it is spoken: its text, or nothing when it is null. */
  function Field(o: Option<string>): string
  {
    if o.Some? then o.value else ""
  }

  function YearText(o: Option<nat>): string
  {
    if o.Some? then Digits(o.value) else ""
  }

  /** `f"${price:,}"` when the price is given, otherwise "Call for price". */
  function PriceText(p: Option<nat>): string
  {
    if CountGiven(p) then "$" + Grouped(p.value) else "Call for price"
  }

  /** A price that is given is spoken as '$' and its grouped digits, which
      read back as the price; a null or zero price as "Call for price". */
  lemma PriceSpoken(p: Option<nat>)
    ensures CountGiven(p) ==>
      PriceText(p)[0] == '$' && WellGrouped(PriceText(p)[1..])
      && AllDigits(DropCommas(PriceText(p)[1..])) && Value(DropCommas(PriceText(p)[1..])) == p.value
    ensures !CountGiven(p) <==> PriceText(p) == "Call for price"
  {
    if CountGiven(p) {
      GroupedReadsBack(p.value);
      assert PriceText(p)[1..] == Grouped(p.value);
    }
  }

  /** `f"{city}, {state}".strip(', ')`. */
  function Location(city: Option<string>, state: Option<string>): string
  {
    Strip(Field(city) + ", " + Field(state))
  }

  /** The location is empty, and so not spoken, exactly when city and state
      hold nothing but commas and spaces; in particular when both are null. */
  lemma LocationEmptyIff(city: Option<string>, state: Option<string>)
    ensures Location(city, state) == "" <==> AllStrippable(Field(city)) && AllStrippable(Field(state))
    ensures Location(None, None) == ""
    ensures forall l: Listing {:trigger PlaceClause(l)} :: l.city == city && l.state == state ==>
      (PlaceClause(l) == "" <==> Location(city, state) == "")
  {
    var c, s := Field(city), Field(state);
    StripEmptyIff(c + ", " + s);
    AllStrippableConcat(c + ", ", s);
    AllStrippableConcat(c, ", ");
    assert Field(None) + ", " + Field(None) == ", ";
    StripEmptyIff(", ");
  }

  /** The vehicle part of an entry: `f"{year} {make} {model}, {condition}, "`. */
  function Vehicle(l: Listing): string
  {
    YearText(l.year) + " " + Field(l.make) + " " + Field(l.model) + ", " + Field(l.condition) + ", "
  }

  /** `f", located in {location}"` when the location is not empty. */
  function PlaceClause(l: Listing): string
  {
    var place := Location(l.city, l.state);
    if place != "" then ", located in " + place else ""
  }

  /** One entry of the list: its number, the vehicle, the price and the
      location clause. */
  function ItemLine(i: nat, l: Listing): string
  {
    Digits(i) + ". " + Vehicle(l) + PriceText(l.price) + PlaceClause(l)
  }

  /** Entry i of the list begins with its number and ends with the price,
      followed by the location clause exactly when there is a location. */
  lemma ItemLineShape(i: nat, l: Listing)
    ensures Digits(i) + ". " <= ItemLine(i, l)
    ensures var line, tail := ItemLine(i, l), PriceText(l.price) + PlaceClause(l);
      |tail| <= |line| && line[|line| - |tail|..] == tail
    ensures PlaceClause(l) == "" <==> Location(l.city, l.state) == ""
  {
    FourParts(Digits(i) + ". ", Vehicle(l), PriceText(l.price), PlaceClause(l));
  }

  /** The first part and the last two of four concatenated parts. */
  lemma FourParts(a: string, b: string, c: string, d: string)
    ensures a <= a + b + c + d
    ensures |c + d| <= |a + b + c + d| && (a + b + c + d)[|a + b + c + d| - |c + d|..] == c + d
    ensures |d| <= |a + b + c + d| && (a + b + c + d)[|a + b + c + d| - |d|..] == d
  {
    assert a + b + c + d == a + (b + (c + d));
    assert a + b + c + d == (a + b) + (c + d);
  }

  /** The entries for ls, numbered from `first` in order. */
  function ItemLines(ls: seq<Listing>, first: nat): (lines: seq<string>)
  {
    Numbered(ls, first, ItemLine)
  }

  /** f applied to each row and its number, counting from `first`. */
  function Numbered<T>(xs: seq<T>, first: nat, f: (nat, T) -> string): seq<string>
  {
    seq(|xs|, i requires 0 <= i < |xs| => f(first + i, xs[i]))
  }

  lemma NumberedSnoc<T>(xs: seq<T>, k: nat, f: (nat, T) -> string)
    requires k < |xs|
    ensures Numbered(xs[..k + 1], 1, f) == Numbered(xs[..k], 1, f) + [f(k + 1, xs[k])]
  {
    var longer, shorter := Numbered(xs[..k + 1], 1, f), Numbered(xs[..k], 1, f);
    assert |longer| == |shorter| + 1;
    forall i | 0 <= i < k
      ensures longer[i] == shorter[i]
    {
      assert xs[..k + 1][i] == xs[..k][i];
    }
  }

  lemma NumberedPrefix<T>(xs: seq<T>, k: nat, f: (nat, T) -> string)
    requires k <= |xs|
    ensures Numbered(xs[..k], 1, f) == Numbered(xs, 1, f)[..k]
  {
  }

  /** `f"I found {n} listings:"`. */
  function Header(n: nat): string
  {
    "I found " + Digits(n) + " listings:"
  }

  /** What the tool says for the rows the query returned. */
  function SearchReply(results: seq<Listing>): string
  {
    if results == [] then NoListingsReply
    else JoinSpaces([Header(|results|)] + ItemLines(results, 1))
  }

  /** The reply is the "no listings" sentence exactly when nothing was found. */
  lemma NoResultsReplyIff(results: seq<Listing>)
    ensures SearchReply(results) == NoListingsReply <==> results == []
  {
    if results != [] {
      JoinSpacesStartsWithFirst(Header(|results|), ItemLines(results, 1));
      assert Header(|results|)[0] == 'I';
      assert SearchReply(results)[0] == 'I';
      assert NoListingsReply[0] == 'N';
    }
  }

  /** A non-empty reply announces the number of listings first. */
  lemma ReplyAnnouncesCount(results: seq<Listing>)
    requires results != []
    ensures Header(|results|) <= SearchReply(results)
  {
    JoinSpacesStartsWithFirst(Header(|results|), ItemLines(results, 1));
  }

  /** The reply lists the first k listings, numbered 1 to k in result order,
      before any other. */
  lemma ReplyListsInOrder(results: seq<Listing>, k: nat)
    requires results != [] && k <= |results|
    ensures JoinSpaces([Header(|results|)] + ItemLines(results[..k], 1)) <= SearchReply(results)
  {
    var lines := ItemLines(results, 1);
    var front := [Header(|results|)] + ItemLines(results[..k], 1);
    NumberedPrefix(results, k, ItemLine);
    if k < |results| {
      assert front + lines[k..] == [Header(|results|)] + lines;
      JoinSpacesAppend(front, lines[k..]);
    } else {
      assert results[..k] == results;
    }
  }

  /** The tool's loop: a header, then one numbered entry per listing,
      joined with spaces. */
  method SpeakResults(results: seq<Listing>) returns (reply: string)
    ensures reply == SearchReply(results)
  {
    if results == [] {
      return NoListingsReply;
    }
    var parts := [Header(|results|)];
    for i := 0 to |results|
      invariant parts == [Header(|results|)] + ItemLines(results[..i], 1)
    {
      NumberedSnoc(results, i, ItemLine);
      parts := parts + [ItemLine(i + 1, results[i])];
    }
    assert results[..|results|] == results;
    reply := JoinSpaces(parts);
  }

  /** `InventoryTools.search`: a raised store request gives the fixed
      apology; otherwise the spoken list of the query's rows. */
  method Search(listings: seq<Listing>, a: SearchArgs, query: Call) returns (reply: string)
    ensures query == Raised ==> reply == SearchTroubleReply
    ensures query == Answered ==> reply == SearchReply(Results(listings, a))
  {
    if query == Raised {
      return SearchTroubleReply;
    }
    var rows := RunQuery(listings, a);
    reply := SpeakResults(rows);
  }
}
