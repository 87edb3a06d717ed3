/** `InventoryTools.get_details`: the sentences spoken about one listing,
    each present only when its column is given. */
module Details {
  import opened Nullable
  import opened Text
  import opened Tables
  import opened Search

  /** The sentences the tool may speak, in the order it speaks them. */
  datatype Clause =
    | Intro(title: string, price: string)
    | InCondition(condition: string)
    | Miles(miles: nat)
    | HoursUsed(hours: nat)
    | LocatedIn(place: string)
    | ListedBy(company: string)
    | FirstLine(sentence: string)

  function Rank(c: Clause): nat
  {
    match c
    case Intro(_, _) => 0
    case InCondition(_) => 1
    case Miles(_) => 2
    case HoursUsed(_) => 3
    case LocatedIn(_) => 4
    case ListedBy(_) => 5
    case FirstLine(_) => 6
  }

  function Render(c: Clause): string
  {
    match c
    case Intro(title, price) => "This is a " + title + ", priced at " + price + "."
    case InCondition(condition) => "It's in " + condition + " condition."
    case Miles(miles) => "It has " + Grouped(miles) + " miles."
    case HoursUsed(hours) => "It has " + Grouped(hours) + " hours."
    case LocatedIn(place) => "Located in " + place + "."
    case ListedBy(company) => "This is listed by " + company + "."
    case FirstLine(sentence) => sentence + "."
  }

  /** The title as spoken: "Unknown" when the column is null. */
  function TitleText(o: Option<string>): string
  {
    if o.Some? then o.value else "Unknown"
  }

  /** A description's first sentence is spoken only when shorter than this. */
  const SummaryLimit := 200

  // Each optional sentence: one clause when its column is given, else none.

  function ConditionPart(l: Listing): seq<Clause>
  {
    if TextGiven(l.condition) then [InCondition(l.condition.value)] else []
  }

  function MilesPart(l: Listing): seq<Clause>
  {
    if CountGiven(l.mileage) then [Miles(l.mileage.value)] else []
  }

  function HoursPart(l: Listing): seq<Clause>
  {
    if CountGiven(l.hours) then [HoursUsed(l.hours.value)] else []
  }

  function PlacePart(l: Listing): seq<Clause>
  {
    var place := Location(l.city, l.state);
    if place != "" then [LocatedIn(place)] else []
  }

  function DealerPart(dealer: Option<Profile>): seq<Clause>
  {
    if dealer.Some? && TextGiven(dealer.value.companyName) then [ListedBy(dealer.value.companyName.value)] else []
  }

  function SummaryPart(l: Listing): seq<Clause>
  {
    if TextGiven(l.description) && |FirstSentence(l.description.value)| < SummaryLimit
    then [FirstLine(FirstSentence(l.description.value))] else []
  }

  /** The sentences spoken about listing l, whose dealer profile is `dealer`. */
  function DetailClauses(l: Listing, dealer: Option<Profile>): seq<Clause>
  {
    [Intro(TitleText(l.title), PriceText(l.price))] + ConditionPart(l) + MilesPart(l) + HoursPart(l)
    + PlacePart(l) + DealerPart(dealer) + SummaryPart(l)
  }

  /** The introduction comes first; every other sentence is spoken exactly
      when its column is given, with the column's value. */
  lemma DetailClausesPresent(l: Listing, dealer: Option<Profile>,
                             c: string, m: nat, h: nat, p: string, n: string, s: string)
    ensures DetailClauses(l, dealer)[0] == Intro(TitleText(l.title), PriceText(l.price))
    ensures InCondition(c) in DetailClauses(l, dealer) <==> TextGiven(l.condition) && c == l.condition.value
    ensures Miles(m) in DetailClauses(l, dealer) <==> CountGiven(l.mileage) && m == l.mileage.value
    ensures HoursUsed(h) in DetailClauses(l, dealer) <==> CountGiven(l.hours) && h == l.hours.value
    ensures LocatedIn(p) in DetailClauses(l, dealer) <==> p == Location(l.city, l.state) && p != ""
    ensures ListedBy(n) in DetailClauses(l, dealer) <==>
      dealer.Some? && TextGiven(dealer.value.companyName) && n == dealer.value.companyName.value
    ensures FirstLine(s) in DetailClauses(l, dealer) <==>
      TextGiven(l.description) && s == FirstSentence(l.description.value) && |s| < SummaryLimit
  {
    ConditionPresent(l, dealer, c);
    MilesPresent(l, dealer, m);
    HoursPresent(l, dealer, h);
    PlacePresent(l, dealer, p);
    DealerPresent(l, dealer, n);
    SummaryPresent(l, dealer, s);
  }

  predicate Ordered(cs: seq<Clause>)
  {
    forall i, j :: 0 <= i < j < |cs| ==> Rank(cs[i]) < Rank(cs[j])
  }

  predicate RanksBelow(cs: seq<Clause>, k: nat)
  {
    forall i :: 0 <= i < |cs| ==> Rank(cs[i]) < k
  }

  lemma Extend(cs: seq<Clause>, opt: seq<Clause>, k: nat)
    requires Ordered(cs) && RanksBelow(cs, k)
    requires |opt| <= 1 && (opt != [] ==> Rank(opt[0]) == k)
    ensures Ordered(cs + opt) && RanksBelow(cs + opt, k + 1)
  {
  }

  /** The sentences come in one fixed order, so each kind is spoken at most
      once and the introduction always first. */
  lemma ClausesInOrder(l: Listing, dealer: Option<Profile>)
    ensures Ordered(DetailClauses(l, dealer))
  {
    var s0 := [Intro(TitleText(l.title), PriceText(l.price))];
    var o1, o2, o3 := ConditionPart(l), MilesPart(l), HoursPart(l);
    var o4, o5, o6 := PlacePart(l), DealerPart(dealer), SummaryPart(l);
    Extend(s0, o1, 1);
    Extend(s0 + o1, o2, 2);
    Extend(s0 + o1 + o2, o3, 3);
    Extend(s0 + o1 + o2 + o3, o4, 4);
    Extend(s0 + o1 + o2 + o3 + o4, o5, 5);
    Extend(s0 + o1 + o2 + o3 + o4 + o5, o6, 6);
  }

  // One helper per optional sentence, each a small proof about membership in
  // the concatenation DetailClauses builds.

  lemma ConditionPresent(l: Listing, dealer: Option<Profile>, c: string)
    ensures InCondition(c) in DetailClauses(l, dealer) <==> TextGiven(l.condition) && c == l.condition.value
  {
  }

  lemma MilesPresent(l: Listing, dealer: Option<Profile>, m: nat)
    ensures Miles(m) in DetailClauses(l, dealer) <==> CountGiven(l.mileage) && m == l.mileage.value
  {
  }

  lemma HoursPresent(l: Listing, dealer: Option<Profile>, h: nat)
    ensures HoursUsed(h) in DetailClauses(l, dealer) <==> CountGiven(l.hours) && h == l.hours.value
  {
  }

  lemma PlacePresent(l: Listing, dealer: Option<Profile>, p: string)
    ensures LocatedIn(p) in DetailClauses(l, dealer) <==> p == Location(l.city, l.state) && p != ""
  {
  }

  lemma DealerPresent(l: Listing, dealer: Option<Profile>, n: string)
    ensures ListedBy(n) in DetailClauses(l, dealer) <==>
      dealer.Some? && TextGiven(dealer.value.companyName) && n == dealer.value.companyName.value
  {
  }

  lemma SummaryPresent(l: Listing, dealer: Option<Profile>, s: string)
    ensures FirstLine(s) in DetailClauses(l, dealer) <==>
      TextGiven(l.description) && s == FirstSentence(l.description.value) && |s| < SummaryLimit
  {
  }

  function RenderAll(cs: seq<Clause>): (parts: seq<string>)
  {
    seq(|cs|, i requires 0 <= i < |cs| => Render(cs[i]))
  }

  const NotFoundReply := "I couldn't find that listing."
    + " It may no longer be available."
  const DetailsTroubleReply := "I'm having trouble getting the details"
    + " right now. Would you like me to take"
    + " your information for a callback?"

  /** What the tool says about listing `id`. */
  function DetailsReply(listings: seq<Listing>, profiles: seq<Profile>, id: string, fetch: Call): string
  {
    if fetch == Raised then DetailsTroubleReply
    else match FindListing(listings, id)
      case None => NotFoundReply
      case Some(l) => JoinSpaces(RenderAll(DetailClauses(l, DealerOf(profiles, l))))
  }

  lemma RenderAllAppend(cs: seq<Clause>, c: Clause)
    ensures RenderAll(cs + [c]) == RenderAll(cs) + [Render(c)]
  {
  }

  /** `InventoryTools.get_details`: look the listing up, then describe it. */
  method GetDetails(listings: seq<Listing>, profiles: seq<Profile>, id: string, fetch: Call)
    returns (reply: string)
    ensures reply == DetailsReply(listings, profiles, id, fetch)
  {
    if fetch == Raised {
      return DetailsTroubleReply;
    }
    var found := FindListing(listings, id);
    if found.None? {
      return NotFoundReply;
    }
    var l := found.value;
    var parts := Describe(l, DealerOf(profiles, l));
    reply := JoinSpaces(parts);
  }

  /** The body of get_details for a listing that was found: one sentence
      appended to `parts` for the introduction and for each given column. */
  method Describe(l: Listing, dealer: Option<Profile>) returns (parts: seq<string>)
    ensures parts == RenderAll(DetailClauses(l, dealer))
  {
    parts := DescribeVehicle(l);
    ghost var said := [Intro(TitleText(l.title), PriceText(l.price))] + ConditionPart(l) + MilesPart(l) + HoursPart(l);
    var place := Location(l.city, l.state);
    if place != "" {
      RenderAllAppend(said, LocatedIn(place));
      parts := parts + ["Located in " + place + "."];
      said := said + [LocatedIn(place)];
    }
    assert said == [Intro(TitleText(l.title), PriceText(l.price))] + ConditionPart(l) + MilesPart(l) + HoursPart(l)
      + PlacePart(l);
    assert parts == RenderAll(said);
    if dealer.Some? && TextGiven(dealer.value.companyName) {
      RenderAllAppend(said, ListedBy(dealer.value.companyName.value));
      parts := parts + ["This is listed by " + dealer.value.companyName.value + "."];
      said := said + [ListedBy(dealer.value.companyName.value)];
    }
    assert said == [Intro(TitleText(l.title), PriceText(l.price))] + ConditionPart(l) + MilesPart(l) + HoursPart(l)
      + PlacePart(l) + DealerPart(dealer);
    assert parts == RenderAll(said);
    if TextGiven(l.description) {
      var desc := FirstSentence(l.description.value);
      if |desc| < SummaryLimit {
        RenderAllAppend(said, FirstLine(desc));
        parts := parts + [desc + "."];
        said := said + [FirstLine(desc)];
      }
    }
    assert parts == RenderAll(said);
    assert said == DetailClauses(l, dealer);
  }

  /** The first sentences of get_details: the title and price, then the
      condition, mileage and hours when given. */
  method DescribeVehicle(l: Listing) returns (parts: seq<string>)
    ensures parts == RenderAll([Intro(TitleText(l.title), PriceText(l.price))] + ConditionPart(l) + MilesPart(l)
      + HoursPart(l))
  {
    var title, price := TitleText(l.title), PriceText(l.price);
    parts := ["This is a " + title + ", priced at " + price + "."];
    ghost var said := [Intro(title, price)];
    assert parts == RenderAll(said);
    if TextGiven(l.condition) {
      RenderAllAppend(said, InCondition(l.condition.value));
      parts := parts + ["It's in " + l.condition.value + " condition."];
      said := said + [InCondition(l.condition.value)];
    }
    assert said == [Intro(title, price)] + ConditionPart(l) && parts == RenderAll(said);
    if CountGiven(l.mileage) {
      RenderAllAppend(said, Miles(l.mileage.value));
      parts := parts + ["It has " + Grouped(l.mileage.value) + " miles."];
      said := said + [Miles(l.mileage.value)];
    }
    assert said == [Intro(title, price)] + ConditionPart(l) + MilesPart(l) && parts == RenderAll(said);
    if CountGiven(l.hours) {
      RenderAllAppend(said, HoursUsed(l.hours.value));
      parts := parts + ["It has " + Grouped(l.hours.value) + " hours."];
      said := said + [HoursUsed(l.hours.value)];
    }
    assert said == [Intro(title, price)] + ConditionPart(l) + MilesPart(l) + HoursPart(l);
  }

  /** Joined with spaces, the rendered sentences begin with the first one. */
  lemma SpokenFirst(cs: seq<Clause>)
    requires cs != []
    ensures Render(cs[0]) <= JoinSpaces(RenderAll(cs))
  {
    assert RenderAll(cs) == [Render(cs[0])] + RenderAll(cs[1..]);
    JoinSpacesStartsWithFirst(Render(cs[0]), RenderAll(cs[1..]));
  }

  /** A listing that is found is described, beginning with its title and
      price; the "couldn't find" reply is given exactly when no listing has
      the id. */
  lemma FoundListingDescribed(listings: seq<Listing>, profiles: seq<Profile>, id: string)
    ensures DetailsReply(listings, profiles, id, Answered) == NotFoundReply
      <==> FindListing(listings, id).None?
    ensures FindListing(listings, id).Some? ==>
      var l := FindListing(listings, id).value;
      Render(Intro(TitleText(l.title), PriceText(l.price))) <= DetailsReply(listings, profiles, id, Answered)
      && DetailsReply(listings, profiles, id, Answered) != DetailsTroubleReply
  {
    var found := FindListing(listings, id);
    if found.Some? {
      var l := found.value;
      var intro := Render(Intro(TitleText(l.title), PriceText(l.price)));
      SpokenFirst(DetailClauses(l, DealerOf(profiles, l)));
      assert intro[0] == 'T';
      assert NotFoundReply[0] == 'I' && DetailsTroubleReply[0] == 'I';
    }
  }
}
