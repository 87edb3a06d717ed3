/** The rows of the store's `listings` and `profiles` tables that the tools
    read, the lookups by key they make, and whether a store request completes
    or raises. */
module Tables {
  import opened Nullable

  /** A row of `listings`; every nullable column is an Option. */
  datatype Listing = Listing(
    id: string,
    title: Option<string>,
    description: Option<string>,
    price: Option<nat>,
    year: Option<nat>,
    make: Option<string>,
    model: Option<string>,
    condition: Option<string>,
    mileage: Option<nat>,
    hours: Option<nat>,
    city: Option<string>,
    state: Option<string>,
    status: string,
    categorySlug: Option<string>,
    createdAt: int,
    userId: Option<string>)

  /** A row of `profiles`, the dealer a listing's `user_id` refers to. */
  datatype Profile = Profile(id: string, companyName: Option<string>)

  /** How a store request ends: with an answer, or by raising (missing
      credentials, a failed request). */
  datatype Call = Answered | Raised

  function CreatedAt(l: Listing): int
  {
    l.createdAt
  }

  /** `.eq("id", id).single()`: the listing whose key is id, if any. */
  function FindListing(listings: seq<Listing>, id: string): (r: Option<Listing>)
    ensures r.Some? ==> r.value in listings && r.value.id == id
    ensures r.None? <==> forall l :: l in listings ==> l.id != id
  {
    if listings == [] then None
    else if listings[0].id == id then Some(listings[0])
    else FindListing(listings[1..], id)
  }

  /** The embedded `profiles!user_id(...)` of a listing: null when the
      listing has no owner or no profile row has the owner's id. */
  function DealerOf(profiles: seq<Profile>, l: Listing): (r: Option<Profile>)
    ensures r.Some? ==> r.value in profiles && l.userId == Some(r.value.id)
    ensures r.None? <==> l.userId.None? || forall p :: p in profiles ==> p.id != l.userId.value
  {
    if l.userId.None? then None else FindProfile(profiles, l.userId.value)
  }

  function FindProfile(profiles: seq<Profile>, id: string): (r: Option<Profile>)
    ensures r.Some? ==> r.value in profiles && r.value.id == id
    ensures r.None? <==> forall p :: p in profiles ==> p.id != id
  {
    if profiles == [] then None
    else if profiles[0].id == id then Some(profiles[0])
    else FindProfile(profiles[1..], id)
  }
}
