/** `LeadTools.capture`: the lead record built from the caller's details,
    stored in the `leads` table, and the reply chosen from how the store
    answered. */
module Leads {
  import opened Nullable
  import opened Tables

  /** A value of the lead record: text, or JSON null. */
  datatype Json = Str(text: string) | Null

  /** A row of `leads`, keyed by column name as the tool's dictionary is. */
  type Lead = map<string, Json>

  /** How the insert into `leads` ends: the stored row is returned, nothing is
      returned, or the request raises. */
  datatype Insert = Confirmed | Unconfirmed | Rejected

  function CapturedReply(phone: string, interest: string): string
  {
    "I've captured your information." + " A dealer will reach out to you at " + phone
    + " soon about " + interest + "."
  }

  const UnconfirmedReply := "I've noted your information."
    + " A team member will follow up with you"
    + " shortly."
  const FailedReply := "I've noted your information."
    + " Someone will be in touch with you soon."

  /** The dealer a lead goes to: the `user_id` of the listing it is about,
      looked up only when a listing id is given. */
  function OwnerOf(listings: seq<Listing>, listingId: Option<string>): Option<string>
  {
    if !TextGiven(listingId) then None
    else match FindListing(listings, listingId.value)
      case None => None
      case Some(l) => l.userId
  }

  /** An owner is only ever found through the listing the lead names. */
  lemma OwnerComesFromListing(listings: seq<Listing>, listingId: Option<string>)
    ensures OwnerOf(listings, listingId).Some? ==>
      TextGiven(listingId)
      && exists l :: l in listings && l.id == listingId.value && l.userId == OwnerOf(listings, listingId)
  {
    if OwnerOf(listings, listingId).Some? {
      var l := FindListing(listings, listingId.value).value;
      assert l in listings && l.id == listingId.value;
    }
  }

  /** The columns every lead has. */
  const BaseKeys: set<string> := {"name", "phone", "email", "message", "source", "status", "created_at"}

  /** lead is the record the tool inserts: status "new", the interest as
      its message, `listing_id` exactly when a listing id is given and
      `user_id` exactly when the listing's owner is given. */
  predicate IsLeadRecord(lead: Lead, name: string, phone: string, interest: string,
                         email: Option<string>, source: string, createdAt: string,
                         listingId: Option<string>, ownerId: Option<string>)
  {
    lead.Keys == BaseKeys + (if TextGiven(listingId) then {"listing_id"} else {})
                 + (if TextGiven(ownerId) then {"user_id"} else {})
    && lead["name"] == Str(name) && lead["phone"] == Str(phone)
    && lead["email"] == (if email.Some? then Str(email.value) else Null)
    && lead["message"] == Str(interest) && lead["source"] == Str(source)
    && lead["status"] == Str("new") && lead["created_at"] == Str(createdAt)
    && (TextGiven(listingId) ==> lead["listing_id"] == Str(listingId.value))
    && (TextGiven(ownerId) ==> lead["user_id"] == Str(ownerId.value))
  }

  /** IsLeadRecord leaves no freedom: it describes one record. */
  lemma LeadRecordUnique(a: Lead, b: Lead, name: string, phone: string, interest: string,
                         email: Option<string>, source: string, createdAt: string,
                         listingId: Option<string>, ownerId: Option<string>)
    requires IsLeadRecord(a, name, phone, interest, email, source, createdAt, listingId, ownerId)
    requires IsLeadRecord(b, name, phone, interest, email, source, createdAt, listingId, ownerId)
    ensures a == b
  {
    assert a.Keys == b.Keys;
    forall k | k in a.Keys
      ensures a[k] == b[k]
    {
      assert k in BaseKeys || k == "listing_id" || k == "user_id";
    }
  }

  /** The tool's `lead_data`: the fixed columns first, then `listing_id`
      and `user_id` added in place when given. */
  method BuildLead(name: string, phone: string, interest: string, email: Option<string>,
                   source: string, createdAt: string, listingId: Option<string>, ownerId: Option<string>)
    returns (lead: Lead)
    ensures IsLeadRecord(lead, name, phone, interest, email, source, createdAt, listingId, ownerId)
  {
    lead := map[
      "name" := Str(name),
      "phone" := Str(phone),
      "email" := if email.Some? then Str(email.value) else Null,
      "message" := Str(interest),
      "source" := Str(source),
      "status" := Str("new"),
      "created_at" := Str(createdAt)];
    if TextGiven(listingId) {
      lead := lead["listing_id" := Str(listingId.value)];
    }
    if TextGiven(ownerId) {
      lead := lead["user_id" := Str(ownerId.value)];
    }
  }

  /** Whether capture stores the lead: the listing lookup, when one is made,
      answered, and the insert returned the stored row. */
  predicate Saved(listingId: Option<string>, lookup: Call, insert: Insert)
  {
    (TextGiven(listingId) ==> lookup == Answered) && insert == Confirmed
  }

  /** `LeadTools.capture`. `lookup` is how the listing lookup (made only
      when a listing id is given) ends and `insert` how the insert ends;
      `createdAt` is the clock reading the record is stamped with. */
  method Capture(listings: seq<Listing>, leads: seq<Lead>, name: string, phone: string,
                 interest: string, email: Option<string>, listingId: Option<string>,
                 source: string, createdAt: string, lookup: Call, insert: Insert)
    returns (reply: string, stored: seq<Lead>)
    ensures reply == CapturedReply(phone, interest) <==> Saved(listingId, lookup, insert)
    ensures reply == UnconfirmedReply <==>
      (TextGiven(listingId) ==> lookup == Answered) && insert == Unconfirmed
    ensures reply == FailedReply <==>
      (TextGiven(listingId) && lookup == Raised) || insert == Rejected
    ensures Saved(listingId, lookup, insert) ==>
      |stored| == |leads| + 1 && stored[..|leads|] == leads
      && IsLeadRecord(stored[|leads|], name, phone, interest, email, source, createdAt,
                      listingId, OwnerOf(listings, listingId))
    ensures !Saved(listingId, lookup, insert) ==> stored == leads
  {
    assert CapturedReply(phone, interest)[5] == 'c';
    assert UnconfirmedReply[5] == 'n' && FailedReply[5] == 'n';
    assert UnconfirmedReply[29] == 'A' && FailedReply[29] == 'S';
    var ownerId: Option<string> := None;
    if TextGiven(listingId) {
      if lookup == Raised {
        return FailedReply, leads;
      }
      var row := FindListing(listings, listingId.value);
      if row.Some? {
        ownerId := row.value.userId;
      }
    }
    var lead := BuildLead(name, phone, interest, email, source, createdAt, listingId, ownerId);
    match insert {
      case Rejected =>
        reply, stored := FailedReply, leads;
      case Unconfirmed =>
        reply, stored := UnconfirmedReply, leads;
      case Confirmed =>
        reply, stored := CapturedReply(phone, interest), leads + [lead];
    }
  }

  /** A stored lead names a dealer only when it also names the listing. */
  lemma NoOwnerWithoutListing(listings: seq<Listing>, lead: Lead, name: string, phone: string,
                              interest: string, email: Option<string>, source: string,
                              createdAt: string, listingId: Option<string>)
    requires IsLeadRecord(lead, name, phone, interest, email, source, createdAt,
                          listingId, OwnerOf(listings, listingId))
    ensures "user_id" in lead ==> "listing_id" in lead
  {
    OwnerComesFromListing(listings, listingId);
  }
}
