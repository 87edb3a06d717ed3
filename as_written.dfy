/** Two places where the tools, as written, do not do what their code
    evidently intends, each modelled as written beside an input that shows
    the difference. The rest of the model uses the intended behaviour. */
module AsWritten {
  import opened Nullable
  import opened Text
  import opened Tables
  import opened Search
  import opened Details

  /** `listing.get(column, '')` as written: the listing always has the
      column (the query selects it), so the default never applies and a null
      column is formatted as the text "None". */
  function FieldAsWritten(o: Option<string>): string
  {
    if o.Some? then o.value else "None"
  }

  /** `listing.get('year', '')` as written, for the integer year column. */
  function YearAsWritten(o: Option<nat>): string
  {
    if o.Some? then Digits(o.value) else "None"
  }

  /** The location as written: `f"{city}, {state}".strip(', ')` over the
      columns as FieldAsWritten gives them. */
  function LocationAsWritten(city: Option<string>, state: Option<string>): string
  {
    Strip(FieldAsWritten(city) + ", " + FieldAsWritten(state))
  }

  function PlaceClauseAsWritten(l: Listing): string
  {
    var place := LocationAsWritten(l.city, l.state);
    if place != "" then ", located in " + place else ""
  }

  /** The vehicle part of an entry as written. */
  function VehicleAsWritten(l: Listing): string
  {
    YearAsWritten(l.year) + " " + FieldAsWritten(l.make) + " " + FieldAsWritten(l.model) + ", "
    + FieldAsWritten(l.condition) + ", "
  }

  /** Entry i of the search reply as written. */
  function ItemLineAsWritten(i: nat, l: Listing): string
  {
    Digits(i) + ". " + VehicleAsWritten(l) + PriceText(l.price) + PlaceClauseAsWritten(l)
  }

  const NullPlaceClause := ", located in None, None"

  /** A listing with null city and state: as written its entry ends with
      ", located in None, None"; Location leaves the clause out. */
  lemma NullPlaceAsWritten(i: nat, l: Listing)
    requires l.city == None && l.state == None
    ensures LocationAsWritten(l.city, l.state) == "None, None"
    ensures var line := ItemLineAsWritten(i, l);
      |NullPlaceClause| <= |line| && line[|line| - |NullPlaceClause|..] == NullPlaceClause
    ensures Location(l.city, l.state) == "" && PlaceClause(l) == ""
  {
    var s := FieldAsWritten(l.city) + ", " + FieldAsWritten(l.state);
    assert s == "None, None";
    assert TrimStart(s) == s;
    assert TrimEnd(s) == s;
    assert PlaceClauseAsWritten(l) == NullPlaceClause;
    FourParts(Digits(i) + ". ", VehicleAsWritten(l), PriceText(l.price), PlaceClauseAsWritten(l));
    LocationEmptyIff(l.city, l.state);
  }

  /** A listing with null year, make, model and condition: as written its
      entry reads "i. None None None, None, " before the price; Vehicle
      speaks those columns as empty. */
  lemma NullVehicleAsWritten(i: nat, l: Listing)
    requires l.year == None && l.make == None && l.model == None && l.condition == None
    ensures ItemLineAsWritten(i, l)
      == Digits(i) + ". " + "None None None, None, " + PriceText(l.price) + PlaceClauseAsWritten(l)
    ensures Vehicle(l) == "  , , "
  {
    assert VehicleAsWritten(l) == "None None None, None, ";
  }

  /** The location sentence of get_details as written. */
  function PlacePartAsWritten(l: Listing): seq<Clause>
  {
    var place := LocationAsWritten(l.city, l.state);
    if place != "" then [LocatedIn(place)] else []
  }

  /** The details sentences as written: the title column as FieldAsWritten
      gives it, and the location as written. */
  function DetailClausesAsWritten(l: Listing, dealer: Option<Profile>): seq<Clause>
  {
    [Intro(FieldAsWritten(l.title), PriceText(l.price))] + ConditionPart(l) + MilesPart(l) + HoursPart(l)
    + PlacePartAsWritten(l) + DealerPart(dealer) + SummaryPart(l)
  }

  /** get_details as written. `listing.get('profiles', {})` is None when the
      listing's `profiles` embed is null, so `dealer.get(...)` raises and the
      tool gives the apology instead of the details. */
  function DetailsReplyAsWritten(listings: seq<Listing>, profiles: seq<Profile>, id: string, fetch: Call): string
  {
    if fetch == Raised then DetailsTroubleReply
    else match FindListing(listings, id)
      case None => NotFoundReply
      case Some(l) =>
        if DealerOf(profiles, l).None? then DetailsTroubleReply
        else JoinSpaces(RenderAll(DetailClausesAsWritten(l, DealerOf(profiles, l))))
  }

  /** A listing with null title, city and state: as written it is introduced
      as "None" and located in "None, None"; DetailClauses introduces it as
      "Unknown" and has no location sentence. */
  lemma NullTitlePlaceAsWritten(l: Listing, dealer: Option<Profile>, p: string)
    requires l.title == None && l.city == None && l.state == None
    ensures DetailClausesAsWritten(l, dealer)[0] == Intro("None", PriceText(l.price))
    ensures LocatedIn("None, None") in DetailClausesAsWritten(l, dealer)
    ensures DetailClauses(l, dealer)[0] == Intro("Unknown", PriceText(l.price))
    ensures LocatedIn(p) !in DetailClauses(l, dealer)
  {
    NullPlaceAsWritten(0, l);
    assert PlacePartAsWritten(l) == [LocatedIn("None, None")];
    var before := [Intro(FieldAsWritten(l.title), PriceText(l.price))] + ConditionPart(l) + MilesPart(l) + HoursPart(l);
    var after := DealerPart(dealer) + SummaryPart(l);
    assert DetailClausesAsWritten(l, dealer) == before + [LocatedIn("None, None")] + after;
    assert (before + [LocatedIn("None, None")] + after)[|before|] == LocatedIn("None, None");
    DetailClausesPresent(l, dealer, "", 0, 0, p, "", "");
  }

  /** As written, the details of such a listing begin "This is a None, ...". */
  lemma NullTitleReplyAsWritten(l: Listing, profiles: seq<Profile>)
    requires l.title == None && DealerOf(profiles, l).Some?
    ensures Render(Intro("None", PriceText(l.price))) <= DetailsReplyAsWritten([l], profiles, l.id, Answered)
  {
    assert FindListing([l], l.id) == Some(l);
    SpokenFirst(DetailClausesAsWritten(l, DealerOf(profiles, l)));
  }

  /** A listing with no owner is found, yet as written the caller hears the
      apology; DetailsReply describes it. */
  lemma OwnerlessListingAsWritten(l: Listing, profiles: seq<Profile>)
    requires l.userId == None
    ensures DetailsReplyAsWritten([l], profiles, l.id, Answered) == DetailsTroubleReply
    ensures DetailsReply([l], profiles, l.id, Answered) != DetailsTroubleReply
  {
    FoundListingDescribed([l], profiles, l.id);
  }
}
