# AxlesAI voice agent tools: a Dafny model

This project models the tool layer of the AxlesAI phone agent: the three
operations the voice model may call while it talks to a caller about truck and
trailer inventory.

- **Inventory search** (`InventoryTools.search`). It queries the `listings`
  table for active listings. Each optional filter is applied only when its
  argument is given: category, make (case-insensitive substring), minimum
  price, maximum price and condition. Results come newest first, cut to
  `limit`, and are read out as a numbered list.
- **Listing details** (`InventoryTools.get_details`). It builds the sentences
  spoken about one listing: title and price, then condition, mileage, hours,
  location, dealer and the first sentence of the description, each only when
  the column is given.
- **Lead capture** (`LeadTools.capture`). It builds the lead record. The
  listing id is recorded when one is given. The listing owner's `user_id` is
  recorded when that lookup finds one. The record is inserted into `leads`
  and the reply depends on how the store answered.

The store's tables are in-memory sequences of rows (`Tables.Listing`,
`Tables.Profile`, `Leads.Lead`). How a store request ends is an input:
`Tables.Call` (`Answered` or `Raised`) and `Leads.Insert` (`Confirmed`,
`Unconfirmed`, `Rejected`). The clock reading stamped on a lead is an input
string. Every tool is total: a failure gives one of the fixed replies and
never an error.

Modules, one per file:

| file | module | what it holds |
|---|---|---|
| nullable.dfy | `Nullable` | `Option`, and the truthiness tests (`TextGiven`, `CountGiven`, `IntGiven`) |
| text.dfy | `Text` | decimal digits, thousands grouping, `strip(', ')`, first sentence, `" ".join`, ASCII case folding |
| query.dfy | `Query` | filter, order-by-descending and limit over a sequence of rows |
| tables.dfy | `Tables` | the `listings` and `profiles` rows and the lookups by key |
| search.dfy | `Search` | the search query, the price and location text, the spoken list |
| details.dfy | `Details` | the details sentences and `GetDetails` |
| leads.dfy | `Leads` | the lead record, `BuildLead` and `Capture` |
| as_written.dfy | `AsWritten` | the behaviours listed under Findings, as the code has them |

The imperative parts of the source are methods with loops or step-by-step
updates. `Search.RunQuery` narrows the query filter by filter.
`Search.SpeakResults` appends one entry per listing in a loop.
`Details.Describe` and `Details.DescribeVehicle` append sentences one by one. `Leads.BuildLead` adds
keys to the record map. Each is proved equal to a specification function,
and the properties are proved about that function. The formatting helpers
are functions.

The wider system around these tools is not part of this model: tenant
lookup, staff PINs, the session store, recording and billing. The source
files modelled here contain none of them. The lead's owner comes only from
the listing's `user_id`; the code has no tenant precedence rule.

## Model

| member | source | states |
|---|---|---|
| `Query.Keep` | agent/tools.py:46-63 | a filter keeps exactly the rows it accepts, and no more rows than it was given |
| `Query.KeepConcat` | agent/tools.py:46-63 | filtering a concatenation is the concatenation of the filtered parts, so kept rows stay in table order |
| `Query.SortedDescending` | agent/tools.py:66 | `order("created_at", desc=True)` yields rows in non-increasing key order |
| `Query.SortDescending` | agent/tools.py:66 | ordering is a permutation of the rows (same multiset) |
| `Query.Take` | agent/tools.py:66 | `limit(n)` keeps a prefix of length min(n, row count) |
| `Query.TakeKeepsLargest` | agent/tools.py:66 | on rows ordered newest first, a row cut off by `limit(n)` means n rows were kept, each at least as new as it |
| `Query.KeepBoth` | agent/tools.py:48-63 | filtering twice in a row equals filtering once by both conditions |
| `Search.MatchingIsOneFilter` | agent/tools.py:44-63 | the chained `.eq`/`.ilike`/`.gte`/`.lte` filters select the same rows, in the same order, as one filter by their conjunction |
| `Tables.FindListing` | agent/tools.py:99-106 | the lookup by id returns a listing of the table with that id, and nothing exactly when no listing has it |
| `Tables.DealerOf` | agent/tools.py:104 | the embedded dealer profile is the profile whose id is the listing's `user_id`, null when there is none |
| `Text.DigitsValue` | agent/tools.py:73 | the numeral written for a count reads back as that count |
| `Text.GroupedReadsBack` | agent/tools.py:126-128 | `:,` gives well-formed groups of three digits, which read back as the number once the commas are removed |
| `Text.StripKeepsMiddle` | agent/tools.py:81 | `strip(', ')` keeps a contiguous middle that neither starts nor ends with a comma or space, and removes only commas and spaces around it |
| `Text.StripEmptyIff` | agent/tools.py:131-132 | stripping gives the empty string exactly when the text holds only commas and spaces |
| `Text.FirstSentence` | agent/tools.py:141 | `split('.')[0]` is the prefix before the first '.', and the whole text when it has no '.' |
| `Search.MatchingIff` | agent/tools.py:44-63 | a listing is selected exactly when it is in the table, active, and meets every filter whose argument is given |
| `Search.RunQuery` | agent/tools.py:43-66 | narrowing filter by filter, only for given arguments, then ordering and limiting, yields `Results` |
| `Search.ResultsMatch` | agent/tools.py:46-63 | every listing answered is active and meets category, make, minimum price, maximum price and condition when given |
| `Search.ResultsNewestFirst` | agent/tools.py:66 | at most `limit` results, newest first, exactly min(limit, matches) of them |
| `Search.OmittedAreOlder` | agent/tools.py:66 | a matching listing cut by the limit is no newer than any listing answered |
| `Search.AllMatchesUnderLimit` | agent/tools.py:66 | when no more listings match than the limit, all of them are answered |
| `Search.SameFiltersSameResults` | agent/tools.py:49-63 | an absent argument and an empty or zero one are the same filter: none |
| `Search.ZeroPriceIsNoBound` | agent/tools.py:56-60 | `min_price=0` and `max_price=0` impose no bound |
| `Search.PriceSpoken` | agent/tools.py:76 | a given price is spoken as '$' and grouped digits that read back as the price; a null or zero price exactly as "Call for price" |
| `Search.LocationEmptyIff` | agent/tools.py:81-85 | the location is empty exactly when city and state hold only commas and spaces (so when both are null), and a search entry has a location clause exactly when the location is not empty |
| `Search.ItemLineShape` | agent/tools.py:83-86 | entry i begins with "i. " and ends with the price, then the location clause exactly when the location is not empty |
| `Search.NoResultsReplyIff` | agent/tools.py:68-69 | the reply is the "No listings found" sentence exactly when nothing was found |
| `Search.ReplyAnnouncesCount` | agent/tools.py:73 | a non-empty reply begins "I found N listings:" with N the number of results |
| `Search.ReplyListsInOrder` | agent/tools.py:75-88 | the entries for the first k results, numbered 1 to k, come first in the reply, in result order |
| `Search.SpeakResults` | agent/tools.py:71-88 | the loop's spoken list equals `SearchReply` of the results |
| `Search.Search` | agent/tools.py:30-92 | a raised request gives the fixed apology; otherwise the spoken list of `Results` |
| `Details.DetailClausesPresent` | agent/tools.py:117-143 | the title-and-price sentence comes first; the condition, mileage, hours, location, dealer and description sentences are present exactly when the column is given, with its value; the description sentence is the first sentence, only when shorter than 200 |
| `Details.ClausesInOrder` | agent/tools.py:115-143 | the sentences come in the code's fixed order, each kind at most once |
| `Details.GetDetails` | agent/tools.py:94-149 | the reply equals `DetailsReply`: the apology on a raised request, the "couldn't find" reply for a missing listing, otherwise the described sentences joined with spaces |
| `Details.Describe` | agent/tools.py:115-145 | the sentences appended one by one are exactly the rendered `DetailClauses` of the listing and its dealer |
| `Details.DescribeVehicle` | agent/tools.py:115-128 | the first sentences appended are the rendered title-and-price, condition, mileage and hours clauses, each optional one only when its column is given |
| `Details.FoundListingDescribed` | agent/tools.py:108-120 | "couldn't find" is said exactly when no listing has the id; a found listing's reply begins with its title and price and is not the apology |
| `Leads.OwnerComesFromListing` | agent/tools.py:186-193 | an owner is found only when a listing id is given, and it is that listing's `user_id` |
| `Leads.BuildLead` | agent/tools.py:196-209 | the record has status "new", the interest as message, the given source, `listing_id` exactly when a listing id is given, `user_id` exactly when the owner is given |
| `Leads.LeadRecordUnique` | agent/tools.py:196-209 | those properties describe a single record |
| `Leads.Capture` | agent/tools.py:172-221 | the "captured" reply naming phone and interest exactly when the record was stored; the follow-up reply when the insert returned nothing; the fallback reply on any raised request; the table grows by the record only when stored |
| `Leads.NoOwnerWithoutListing` | agent/tools.py:186-209 | a lead never has `user_id` without `listing_id` |
| `AsWritten.NullPlaceAsWritten` | agent/tools.py:81-86 | as written, the search entry of a listing with null city and state ends with ", located in None, None"; the corrected entry has no location clause |
| `AsWritten.NullVehicleAsWritten` | agent/tools.py:77-84 | as written, the search entry of a listing with null year, make, model and condition reads "i. None None None, None, " before the price; corrected, those columns are empty |
| `AsWritten.NullTitlePlaceAsWritten` | agent/tools.py:118-133 | as written, a listing with null title, city and state is introduced as "None" and located in "None, None"; corrected, it is "Unknown" with no location sentence |
| `AsWritten.NullTitleReplyAsWritten` | agent/tools.py:118-120 | as written, the details of a listing with a null title begin "This is a None, priced at ..." |
| `AsWritten.OwnerlessListingAsWritten` | agent/tools.py:112-137 | as written, a found listing without an owner profile gets the apology instead of its details |

## Findings

| source | as written | input that shows it | evidently intended | confidence | as-written member | corrected member |
|---|---|---|---|---|---|---|
| agent/tools.py:77-86 | The query selects every column, so a null column is a key holding None. `listing.get(col, '')` returns None and the f-string writes "None". This applies to year, make, model, condition, city and state. | a listing whose year, make, model, condition, city and state are null: its entry reads "1. None None None, None, " and ends ", located in None, None" | a null column is spoken as empty, and the location clause is left out | medium; not executed | `AsWritten.NullPlaceAsWritten` | `Search.LocationEmptyIff` |
| agent/tools.py:118-133 | In `get_details`, `listing.get('title', 'Unknown')` returns None for a null title, and the location at line 131 is built the same way as in the search. | a listing whose title, city and state are null: "This is a None, priced at ..." and "Located in None, None." | a null title is spoken as "Unknown", and no location sentence is given | medium; not executed | `AsWritten.NullTitlePlaceAsWritten` | `Details.DetailClausesPresent` |
| agent/tools.py:112-137 | `listing.get('profiles', {})` returns None when the embedded profile is null. `dealer.get('company_name')` then raises, and the tool gives the apology. | `get_details` for a listing whose `user_id` is null | the listing is described without the dealer sentence | medium; not executed | `AsWritten.OwnerlessListingAsWritten` | `Details.FoundListingDescribed` |

The rest of the model uses the intended behaviour. Null year, make, model and
condition are spoken as empty text, and a null title as "Unknown".

## Left out

- `get_supabase` (agent/tools.py:16-24): credential lookup and client creation. When it raises, the tool's first request raises, so it is the `Raised` / `Rejected` input.
- `get_dealer_phone` and `get_recent_leads` (agent/tools.py:151-166, 223-238): single-query wrappers that return None or [] on any error.
- agent/agent.py: room connection, the realtime model and session, job metadata, the greeting and the worker entry point. This is I/O and a foreign API; its tool methods only forward to the tools above.
- Logging and async/await: they have no effect on what is returned.
- Prices, mileage and hours are non-negative integers. The `:,` format of floats and of negative numbers is not modelled.
- `limit` is a natural number. A negative limit, and the default of 5, are not modelled.
- `ilike("make", f"%{make}%")`: `%` and `_` inside the make argument act as wildcards in the store; the model treats them as plain characters. Case folding is ASCII only.
- A null column never passes an eq, ilike, gte or lte filter, following SQL comparison with null.
- Rows with equal `created_at` keep table order. The store leaves their order unspecified.
- `.single()` that finds no row is treated as an empty answer. If the client raises instead, that is the `Raised` case.
- An insert that returns no data leaves `leads` unchanged in the model. Whether the store kept the row is not visible to the tool.
- Text lengths count characters of `seq<char>`, which matches Python's `len` on code points.
- Columns selected but never read (`vin`, `stock_number`, `specs`, `features`, the profile's phone and email) are not in the row types.
