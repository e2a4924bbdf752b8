# Trempealeau tourism app — a verified Dafny model of its logic

The repository is a tourism application for Trempealeau County. It has three parts:

- a React Native mobile client (explore, detail, map, saved places, tag results);
- a React admin web site (page editor and page list, trails, analytics, search bar, data form);
- a FastAPI backend over DynamoDB (page and analytics repositories, a Cognito token verifier) and a small walking-route service in front of an OSRM server.

This project models the logic inside those parts that decides results. Screens, styling and transport are not modelled. One Dafny module covers each core source file:

- **`Nearby`, `FetchNearbyPages`** — the proximity query: seed lookup, self-exclusion, radius filter and a stable sort by distance. Then the enrichment loop, which asks a lookup oracle for each nearby id and stops at `maxResults` pages.
- **`Repository`, `EventAnalytics`** — the backend repository:
  - the pages table as a map keyed by `(id, title)`;
  - create (409), get with the visibility rule for unpublished pages, and update, publish and delete (404);
  - the `SET` update-expression builder and the `search_pages` decision tree;
  - the per-event counters and the hour/day bucketing of the analytics report.
- **`Cognito`** — the JWKS cache with its one-hour lifetime, the first-match key search by `kid`, the ordered claim checks and the mapping of errors to 401 and 503.
- **`Trails`, `JsValue`** — the GeoJSON comparison (features, property keys, ids, names and the differences between two files) and the marker workspace, over a model of parsed JSON values.
- **`MapScreen`** — the route planner:
  - a class whose fields are the screen's state;
  - the region clamp, the two-step start/destination reducer and the suggestions;
  - stop insertion, the filter toggle, search start and clear.
- **`PageEditor`, `SearchBar`, `AnalyticsPage`, `PageSearch`, `DataForm`** — admin-site lists and forms:
  - in the page editor, tag, link and category editing, tag serialisation and the create/update submit;
  - search-result assembly in the search bar;
  - the table pager and the CSV exports of the analytics page;
  - newest-first ordering, search and delete in the page list;
  - required-field validation in the data form.
- **`SavedStore`, `SavedScreen`, `ExploreScreen`, `DetailScreen`, `TagResults`** — the mobile screens:
  - the saved-id set and the folders grouped by type;
  - paginated featured places;
  - the parent/child "nearby" strip;
  - tag filtering.
- **`Routing`** — the OSRM coordinate string, the 502 error paths and the swap from `[lon, lat]` to `{latitude, longitude}`.

Shared vocabulary is in `Common`: `Option`, HTTP outcomes, and string operations (lower-casing, containment, trimming, split and join, decimal rendering). `Sorting` holds a stable sort with its permutation, ordering and stability lemmas. `Locations` holds the mobile location record.

Code that updates state in place is modelled as classes with `modifies` clauses:

- the planner, editor, pager, store, explore screen and form;
- the verifier cache;
- the page table.

Loops are modelled as methods with loop invariants. These include the enrichment loop, the counter report, the grouping `reduce`, the CSV builders, the in-place sort of the page list and the `unshift` loop. Expression-only code becomes functions with lemmas.

## Model

| member | source | states |
|---|---|---|
| Nearby.FindFrom | apps/mobile/lib/nearby.ts:52-54 | the position found from `i` on is the first one whose global ids hold the id; `None` only when no position from `i` on has it |
| Nearby.FindCenter | apps/mobile/lib/nearby.ts:52-55 | `PLACES.find`: the first place holding the id, and `None` exactly when no place holds it |
| Nearby.SameSpot | apps/mobile/lib/nearby.ts:61-66 | the centre test compares label, source, latitude and longitude, not identity |
| Nearby.Kept | apps/mobile/lib/nearby.ts:59-71 | a place is kept when it is not at the centre's spot and its haversine distance from the centre is at most the radius |
| Nearby.NearbyRanked | apps/mobile/lib/nearby.ts:52-77 | no centre gives no results; otherwise the kept places paired with their distances, stably sorted by distance |
| Nearby.ByDistanceTotalPreorder | apps/mobile/lib/nearby.ts:77 | the comparison `a.distance - b.distance <= 0` is a total preorder, so the stable sort is well defined |
| Nearby.CandidatesFrom | apps/mobile/lib/nearby.ts:58-75 | every candidate is a place of the index, not at the centre's spot, within the radius and paired with its distance; every such place is a candidate; candidates come in index order |
| Nearby.Unranked | apps/mobile/lib/nearby.ts:79 | stripping the distances keeps the places one for one, in order |
| Nearby.GetNearbyByGlobalId | apps/mobile/lib/nearby.ts:48-80 | never more results than places; an id no place carries gives an empty list, not an error |
| Nearby.FirstId | apps/mobile/lib/nearby.ts:92-93 | `p.global_ids?.[0]`, kept only when it is a non-empty string (`Boolean(id)`) |
| Nearby.NearbySound | apps/mobile/lib/nearby.ts:58-71 | each result is a place of the index, is not structurally equal to the centre, and lies within the radius |
| Nearby.NearbyComplete | apps/mobile/lib/nearby.ts:58-71 | each place that is not at the centre's spot and lies within the radius is returned |
| Nearby.NearbyMonotoneInRadius | apps/mobile/lib/nearby.ts:69-70 | for r1 <= r2, each result for r1 is also a result for r2 |
| Nearby.NearbyPermutation | apps/mobile/lib/nearby.ts:72-77 | the sorted results are a permutation of the filtered places |
| Nearby.NearbySorted | apps/mobile/lib/nearby.ts:77 | results come in non-decreasing distance |
| Nearby.NearbyTiesInIndexOrder | apps/mobile/lib/nearby.ts:77 | results at equal distance keep their index order, because the sort is stable |
| Nearby.FirstIds | apps/mobile/lib/nearby.ts:91-93 | no more ids than places |
| Nearby.Shift | apps/mobile/lib/nearby.ts:91-93 | each position moves up by one |
| Nearby.IdSources | apps/mobile/lib/nearby.ts:91-93 | one source position per kept id |
| Nearby.ShiftSources | apps/mobile/lib/nearby.ts:91-93 | sources found in the tail stay sources, shifted by one, in the whole list |
| Nearby.ConsSources | apps/mobile/lib/nearby.ts:91-93 | a first place with a usable id adds source 0 in front |
| Nearby.IdSourcesOf | apps/mobile/lib/nearby.ts:91-93 | the k-th id is the first global id of the place at the k-th source position |
| Nearby.IdSourcesSound | apps/mobile/lib/nearby.ts:92-93 | each returned id is `global_ids[0]` of the nearby place it comes from, and that id is non-empty |
| Nearby.ConsIncreasing | apps/mobile/lib/nearby.ts:91-93 | putting 0 in front of an increasing list of positive positions keeps it increasing |
| Nearby.IdSourcesIncreasing | apps/mobile/lib/nearby.ts:91-93 | the ids come in the proximity order of their places |
| Nearby.IdSourcesComplete | apps/mobile/lib/nearby.ts:92-93 | each place with a non-empty first global id contributes it; places without ids, with an empty array or a falsy first id are skipped |
| Nearby.GetNearbyGlobalIds | apps/mobile/lib/nearby.ts:85-94 | never more ids than nearby places, and no returned id is empty |
| Nearby.NoDeduplication | apps/mobile/lib/nearby.ts:89-93 | two places with the same first id give it twice: ids are not deduplicated |
| FetchNearbyPages.Step | apps/mobile/lib/fetchNearbyPages.ts:41-50 | an answer with `exists` and a page stores that page under the id; a failure or a missing page adds nothing; a repeated id does not grow the result |
| FetchNearbyPages.Found | apps/mobile/lib/fetchNearbyPages.ts:45 | a lookup contributes a page only when the backend answered, `exists` is set and a page came back |
| FetchNearbyPages.Collect | apps/mobile/lib/fetchNearbyPages.ts:30-51 | the result map after the loop: the ids are walked in order, the walk stops once the map holds `maxResults` entries, and each found page is stored under its id |
| FetchNearbyPages.Queried | apps/mobile/lib/fetchNearbyPages.ts:33-40 | the ids the loop asks the backend about, in order, up to the point where the map is full |
| FetchNearbyPages.FetchNearbyPagesForGisId | apps/mobile/lib/fetchNearbyPages.ts:20-54 | an empty centre id gives `{}` with no lookups; otherwise the result and the ids looked up are those of walking the nearby ids in order and stopping once `maxResults` pages are held |
| FetchNearbyPages.CollectBounded | apps/mobile/lib/fetchNearbyPages.ts:34 | the result never holds more than `maxResults` keys |
| FetchNearbyPages.NonPositiveMaxResults | apps/mobile/lib/fetchNearbyPages.ts:34 | with `maxResults <= 0` nothing is looked up and the result is empty |
| FetchNearbyPages.CollectKeys | apps/mobile/lib/fetchNearbyPages.ts:28-47 | a key is in the result exactly when it was looked up and found, and its value is the page returned for it |
| FetchNearbyPages.QueriedIsPrefix | apps/mobile/lib/fetchNearbyPages.ts:33-34 | lookups follow candidate order: the ids looked up are a prefix of the candidates, so there are at most `\|nearbyIds\|` of them |
| FetchNearbyPages.StopsOnlyWhenFull | apps/mobile/lib/fetchNearbyPages.ts:34-50 | the walk ends before the last candidate only when the result is full; failures never stop it |
| Repository.Parts | apps/backend/api/app/database/repository.py:169-172 | part i of the expression is `#attr{i} = :val{i}`, one part per remaining update |
| Repository.BuildUpdateExpression | apps/backend/api/app/database/repository.py:164-181 | the loop's expression and placeholder maps are `"SET "` plus the parts joined by `", "`, the `updated_at` part last, with `#attr{i}` naming the i-th key and `:val{i}` holding its value |
| Repository.AttrNameInjective | apps/backend/api/app/database/repository.py:170 | distinct indices give distinct `#attr{i}` placeholders |
| Repository.ValNameInjective | apps/backend/api/app/database/repository.py:171 | distinct indices give distinct `:val{i}` placeholders |
| Repository.PlaceholdersDiffer | apps/backend/api/app/database/repository.py:170-179 | no indexed placeholder collides with `#updated_at` or `:updated_at` |
| Repository.PlaceholdersDecode | apps/backend/api/app/database/repository.py:169-174 | `#attr{i}` maps to the i-th remaining key and `:val{i}` to its value, for every i |
| Repository.PlaceholdersOnly | apps/backend/api/app/database/repository.py:169-174 | the name and value maps hold exactly the n indexed placeholders, each once |
| Repository.ApplyPartsMeaning | apps/backend/api/app/database/repository.py:169-191 | applying the n `SET` parts through the placeholder maps writes each update into the item, a later key winning |
| Repository.UpdateRequestMeaning | apps/backend/api/app/database/repository.py:164-194 | the request built decodes to exactly the intended change: the item overwritten by the updates, with `updated_at` set to now |
| Repository.UpdateRequestSize | apps/backend/api/app/database/repository.py:176-181 | the maps hold \|updates\| + 1 names and values; the `updated_at` pair is the extra one |
| Repository.UpdatedKeepsKey | apps/backend/api/app/database/repository.py:184-194 | an update DynamoDB accepts leaves `id` and `title` unchanged, so the item stays under its key |
| Repository.AsMapKeys | apps/backend/api/app/database/repository.py:169-173 | the attributes written are exactly the keys of the updates |
| Repository.KeyOf | apps/backend/api/app/database/repository.py:185-188 | an item's primary key: its numeric `id` and its string `title`, the two key attributes every table call passes |
| Repository.UpdateRequestOf | apps/backend/api/app/database/repository.py:164-181 | the update request: the `SET` expression of the numbered placeholders followed by `#updated_at = :updated_at`, with the name and value maps that go with it |
| Repository.Updated | apps/backend/api/app/database/repository.py:183-195 | the `ALL_NEW` item: the stored attributes overwritten by the updates, with `updated_at` set to the current time |
| Repository.RejectedByDynamo | apps/backend/api/app/database/repository.py:169-192 | DynamoDB refuses the update when it sets a key attribute (`id` or `title`) or `updated_at`, which line 177 already sets |
| Repository.PageRepository.constructor | apps/backend/api/app/database/repository.py:39-40 | an empty table in which each item is stored under its own key |
| Repository.PageRepository.CreatePage | apps/backend/api/app/database/repository.py:44-69 | the caller's `id` overrides the generated uuid; an existing key gives 409 "Item already exists" and leaves the table; a key that is not a number and a string gives 500; otherwise the item is stored under its key and returned |
| Repository.PageRepository.GetPage | apps/backend/api/app/database/repository.py:71-86 | a path id that `int` cannot read gives the unhandled 500, and only then; otherwise an item comes back exactly when it exists and is published or the caller is authorised, and it is the stored item |
| Repository.PublishedVisibility | apps/backend/api/app/database/repository.py:82-86 | for a readable id of a stored page, an unauthorised caller gets the page exactly when it is published and nothing otherwise; an authorised one always gets it |
| Repository.PageRepository.UpdatePage | apps/backend/api/app/database/repository.py:150-205 | null fields are dropped and nothing left gives 400; then a path id that `int` cannot read gives the unhandled 500; a `SET` of `id`, `title` or `updated_at` gives 500; a missing key gives 404; otherwise the stored and returned item is the old one overwritten by the updates with `updated_at` set to now, and nothing else changes |
| Repository.PageRepository.PublishPage | apps/backend/api/app/database/repository.py:207-238 | a path id that `int` cannot read gives the unhandled 500 and no change; a missing key gives 404 and no change; otherwise `published` becomes true and `published_at` and `updated_at` both get the same time |
| Repository.PageRepository.DeletePage | apps/backend/api/app/database/repository.py:240-261 | a path id that `int` cannot read gives the unhandled 500 and no change; a missing key gives 404 and no change; otherwise exactly that key is removed and the result is true |
| Repository.SearchFilter | apps/backend/api/app/database/repository.py:274-357 | the scan filter of each branch, or none on the branch that never assigns `response` (no city, no type, blank term, published off) |
| Repository.SearchPages | apps/backend/api/app/database/repository.py:263-358 | results are items the scan visited; the call succeeds exactly when a branch issued a scan |
| Repository.SearchHole | apps/backend/api/app/database/repository.py:274-290 | no scan is issued, and `response.get` then fails, exactly when there is no city, no type, a blank term and a falsy `published` |
| Repository.SearchIgnoresPublishedAndTag | apps/backend/api/app/database/repository.py:275-357 | with a city or a type, `published` and `tag` do not change the filter |
| Repository.SearchCityTypeTerm | apps/backend/api/app/database/repository.py:348-357 | with a city, a type and a term, a visited item is a result exactly when its city and type are equal to those given and its title or content contains the term |
| EventAnalytics.BucketOf | apps/backend/api/app/database/repository.py:405-409 | for "hour" the bucket is the start of the timestamp's hour, for "day" the start of its day, otherwise the timestamp itself |
| EventAnalytics.BucketIdempotent | apps/backend/api/app/database/repository.py:405-409 | a bucket start is its own bucket |
| EventAnalytics.AddToBuckets | apps/backend/api/app/database/repository.py:411-417 | adding an item grows the output by at most one entry |
| EventAnalytics.Aggregated | apps/backend/api/app/database/repository.py:403-419 | the `aggregated` dict after the loop, built one selected item at a time in iteration order; what it holds is stated by the lemmas below |
| EventAnalytics.AddToBucketsNew | apps/backend/api/app/database/repository.py:411-417 | an unseen bucket is appended with the item's event and count |
| EventAnalytics.AddToBucketsHit | apps/backend/api/app/database/repository.py:417 | a seen bucket has exactly its count raised and nothing else changes |
| EventAnalytics.AddToBucketsSum | apps/backend/api/app/database/repository.py:417 | adding an item raises the total count by the item's count |
| EventAnalytics.SumCountsSnoc | apps/backend/api/app/database/repository.py:417 | the total of a list is the total of all but its last item plus that item's count |
| EventAnalytics.AggregatedTotal | apps/backend/api/app/database/repository.py:403-419 | aggregation preserves the total count |
| EventAnalytics.FirstAt | apps/backend/api/app/database/repository.py:411 | the first entry for a listed bucket |
| EventAnalytics.AggregatedDistinct | apps/backend/api/app/database/repository.py:411-419 | no bucket appears twice in the output |
| EventAnalytics.AggregatedSound | apps/backend/api/app/database/repository.py:411-419 | each output entry is the bucket of some selected item |
| EventAnalytics.ListedCons | apps/backend/api/app/database/repository.py:419 | a bucket is listed in `[x] + bs` exactly when it is x's bucket or listed in bs |
| EventAnalytics.AddToBucketsListed | apps/backend/api/app/database/repository.py:411-417 | after an item is added, the listed buckets are the old ones plus the item's |
| EventAnalytics.AggregatedComplete | apps/backend/api/app/database/repository.py:404-419 | each selected item's bucket has an output entry |
| EventAnalytics.FirstInBucketSnoc | apps/backend/api/app/database/repository.py:404 | appending an item keeps the first item of a bucket first |
| EventAnalytics.AggregatedEvent | apps/backend/api/app/database/repository.py:411-416 | each entry carries the event of the first item that fell into its bucket |
| EventAnalytics.InBucket | apps/backend/api/app/database/repository.py:405-411 | the items whose truncated timestamp is `ts`, which are the items that feed `aggregated[ts]` |
| EventAnalytics.NewBucketFirst | apps/backend/api/app/database/repository.py:411-416 | when the last item opens a new bucket, no earlier item falls in that bucket, so the last item is the first of its bucket |
| EventAnalytics.BucketCountHit | apps/backend/api/app/database/repository.py:417 | one more item keeps every existing entry's bucket and adds the item's count to an entry exactly when the item falls in its bucket |
| EventAnalytics.AggregatedBucketCount | apps/backend/api/app/database/repository.py:403-419 | each entry's count is the sum of the counts of exactly the selected items that fall in its bucket |
| EventAnalytics.AggregatedFirstSeenOrder | apps/backend/api/app/database/repository.py:411-419 | the entries come in the order in which their buckets were first seen in the selection, the insertion order of the dict |
| EventAnalytics.Entries | apps/backend/api/app/database/repository.py:419 | `list(aggregated.values())`: one entry per key, in insertion order |
| EventAnalytics.EntriesFrame | apps/backend/api/app/database/repository.py:412 | storing under a key not yet inserted leaves the listed entries unchanged |
| EventAnalytics.EntriesAt | apps/backend/api/app/database/repository.py:419 | the m-th listed entry is the value under the m-th inserted key |
| EventAnalytics.EntriesUpdate | apps/backend/api/app/database/repository.py:417 | overwriting the value of an inserted key changes exactly that entry |
| EventAnalytics.EntriesAppend | apps/backend/api/app/database/repository.py:411-416 | inserting a new key appends its entry |
| EventAnalytics.AggregatedSnoc | apps/backend/api/app/database/repository.py:404 | aggregating one more item is one `AddToBuckets` step |
| EventAnalytics.StepNew | apps/backend/api/app/database/repository.py:411-417 | a new bucket goes to the end of the insertion order, and the dictionary still matches the aggregation |
| EventAnalytics.StepHit | apps/backend/api/app/database/repository.py:417 | a seen bucket keeps its place and has its count raised, and the dictionary still matches the aggregation |
| EventAnalytics.ReplaceKeepsTracks | apps/backend/api/app/database/repository.py:417 | replacing an entry by one with the same bucket keeps the dictionary and its insertion order consistent |
| EventAnalytics.Aggregate | apps/backend/api/app/database/repository.py:403-419 | the loop's output is the aggregation of the selected items |
| EventAnalytics.CountItem | apps/backend/api/app/database/repository.py:405-417 | one pass creates the bucket at count 0 when missing and adds the item's count; the entries become those of `AddToBuckets` |
| EventAnalytics.SelectEvents | apps/backend/api/app/database/repository.py:386-396 | with an event name the selection is the items of that event, otherwise the items whose event contains the type, from `oldest` on when `oldest` is truthy; with neither there is no selection |
| EventAnalytics.GetEventAnalytics | apps/backend/api/app/database/repository.py:383-419 | with neither name nor type the call fails because `response` is unbound; otherwise the result is `Aggregated` of the selection, whose counts per bucket and first-seen order AggregatedBucketCount and AggregatedFirstSeenOrder state |
| EventAnalytics.EffectiveTimestamp | apps/backend/api/app/database/repository.py:428-432 | a truthy timestamp is used as given; otherwise it is now floored to the minute |
| EventAnalytics.AnalyticsRepository.constructor | apps/backend/api/app/database/repository.py:368-369 | no counters |
| EventAnalytics.AnalyticsRepository.LogEvent | apps/backend/api/app/database/repository.py:426-446 | the counter of `(event, timestamp)` rises by exactly 1, from 0 when missing, and no other counter changes |
| Cognito.ExpectedIssuer | apps/backend/api/app/auth/cognito.py:101 | the issuer is exactly `https://cognito-idp.` + region + `.amazonaws.com/` + user pool id, read back piece by piece |
| Cognito.AudienceFor | apps/backend/api/app/auth/cognito.py:79-82 | an audience, the app client id, is passed exactly when the token use is "id" |
| Cognito.CheckClaims | apps/backend/api/app/auth/cognito.py:86-108 | the checks run in order (expiry, then token use, then issuer), each with its own 401 message; the payload is returned unchanged exactly when all three pass |
| Cognito.JwtErrorOutcome | apps/backend/api/app/auth/cognito.py:110-121 | every `JWTError` is a 401, "Expired token" exactly when the lower-cased message contains "expired", otherwise "Invalid token" |
| Cognito.FindSigningKey | apps/backend/api/app/auth/cognito.py:44-46 | the loop returns the first key whose `kid` equals the header's |
| Cognito.Fresh | apps/backend/api/app/auth/cognito.py:25 | the cache is served only when the cached document is truthy and younger than the cache duration of 3600 seconds |
| Cognito.JwksAfter | apps/backend/api/app/auth/cognito.py:21-38 | `_get_jwks` as a value: a fresh cache is returned and kept; otherwise a failed fetch is a 503 that keeps the old cache, and a fetched document is returned and cached with the current time |
| Cognito.FirstKey | apps/backend/api/app/auth/cognito.py:44-46 | the first key of the list whose `kid` equals the header's `kid`, or none |
| Cognito.SigningKeyAfter | apps/backend/api/app/auth/cognito.py:40-51 | `_get_signing_key`: a JWKS error passes through, no matching key is a 401 "Unable to find appropriate signing key", otherwise the first matching key |
| Cognito.Expired | apps/backend/api/app/auth/cognito.py:87 | the expiry check fires only when `exp` is present and non-zero (Python truthiness) and the current time is past it |
| Cognito.VerifyAfter | apps/backend/api/app/auth/cognito.py:53-121 | `verify_token` as a value: header and decode errors become the `JWTError` replies, key errors pass through, a decoded payload goes through the claim checks; the cache fields change only through the key lookup |
| Cognito.CognitoVerifier.constructor | apps/backend/api/app/auth/cognito.py:12-19 | the configuration is stored, with no cached JWKS and a cache time of 0 |
| Cognito.CognitoVerifier.GetJwks | apps/backend/api/app/auth/cognito.py:21-38 | the answer and the new cache fields are those `JwksAfter` gives for the old fields |
| Cognito.CognitoVerifier.GetSigningKey | apps/backend/api/app/auth/cognito.py:40-51 | the answer and the new cache fields are those `SigningKeyAfter` gives for the old fields |
| Cognito.CognitoVerifier.VerifyToken | apps/backend/api/app/auth/cognito.py:53-121 | the answer and the new cache fields are those `VerifyAfter` gives for the old fields |
| Cognito.CacheHit | apps/backend/api/app/auth/cognito.py:25-26 | a non-empty cache younger than 3600 s is returned without fetching, and neither field changes |
| Cognito.CacheRefetch | apps/backend/api/app/auth/cognito.py:28-33 | an empty, missing or stale cache is refetched; on success the document replaces the cache and the cache time becomes now |
| Cognito.FetchFailureKeepsCache | apps/backend/api/app/auth/cognito.py:34-38 | a failed fetch answers 503 and leaves both cache fields unchanged |
| Cognito.ServedFromCacheWithinHour | apps/backend/api/app/auth/cognito.py:25-33 | after a fetch of a non-empty document, every call within the next hour is answered with it from the cache |
| Cognito.EmptyDocumentNotCached | apps/backend/api/app/auth/cognito.py:25 | a fetched document without members is never served from the cache, because an empty dict is falsy |
| Cognito.FirstKeyMeaning | apps/backend/api/app/auth/cognito.py:44-51 | the key found is the first whose `kid` matches, and there is none exactly when no key matches |
| Cognito.SigningKeyOutcome | apps/backend/api/app/auth/cognito.py:40-51 | a failed JWKS fetch gives 503; no matching key gives 401 "Unable to find appropriate signing key"; otherwise the first match; either way the cache is as `_get_jwks` left it |
| Cognito.VerifySound | apps/backend/api/app/auth/cognito.py:64-108 | a payload is returned only when the header parsed, a key matched, the decoder accepted the token with the audience for its use, the payload is not expired, and its token use and issuer are the expected ones; the payload is the decoded one |
| Cognito.VerifyStatuses | apps/backend/api/app/auth/cognito.py:88-121 | every failure is a 401 except a failed JWKS fetch, which is a 503 |
| Cognito.VerifyUsesAudienceFor | apps/backend/api/app/auth/cognito.py:75-84 | the decoder is only ever called with the audience for the token use |
| Cognito.ExpiryCheckedFirst | apps/backend/api/app/auth/cognito.py:86-91 | an expired payload is rejected as expired whatever its token use and issuer |
| Trails.AsFeatures | apps/web/AdminWebpage/src/pages/Trails.tsx:502-511 | a FeatureCollection with a `features` array gives that array, an array gives itself, and anything else gives `[]` |
| Trails.FeatureId | apps/web/AdminWebpage/src/pages/Trails.tsx:552-561 | the first of GlobalID, OBJECTID, Name and name that is neither null nor undefined, as text; "" when all four are |
| Trails.FeatureName | apps/web/AdminWebpage/src/pages/Trails.tsx:563-571 | a truthy `Name ?? name` as it is, else `OBJECTID=…` when OBJECTID is defined, else "(no name)" |
| Trails.FeatureIdKeepsFalsyValues | apps/web/AdminWebpage/src/pages/Trails.tsx:555-559 | only null and undefined fall through: a GlobalID of 0 gives the id "0" even when a Name is present |
| Trails.FeatureIdSkipsNull | apps/web/AdminWebpage/src/pages/Trails.tsx:555-556 | a null GlobalID falls through to OBJECTID |
| Trails.EmptyNameHidesLowercaseName | apps/web/AdminWebpage/src/pages/Trails.tsx:565-570 | an empty Name is not nullish, so it hides a non-empty `name` and the name is "(no name)" |
| Trails.FeatureKeys | apps/web/AdminWebpage/src/pages/Trails.tsx:527-534 | the keys a feature adds: those of the code as written wherever that does not throw, and none for `properties: null` |
| Trails.NullPropertiesThrow | apps/web/AdminWebpage/src/pages/Trails.tsx:527-553 | a feature with `properties: null` passes the `typeof` test and `Object.keys(null)` throws, while `featureId` treats the same feature as having no properties |
| Trails.KeyAmongStep | apps/web/AdminWebpage/src/pages/Trails.tsx:526 | the keys of the first i+1 features are those of the first i plus those of feature i |
| Trails.AddAll | apps/web/AdminWebpage/src/pages/Trails.tsx:531-533 | adding keys to the `Set` keeps what it held first, in order, adds each missing key once, and adds nothing else |
| Trails.SummarizeProps | apps/web/AdminWebpage/src/pages/Trails.tsx:522-537 | the result is sorted, has no duplicates, and holds exactly the property keys of the first 200 features |
| Trails.PropsOf | apps/web/AdminWebpage/src/pages/Trails.tsx:553 | `feat?.properties ?? {}`: a feature's properties, or the empty object when they are absent or null |
| Trails.NewProps | apps/web/AdminWebpage/src/pages/Trails.tsx:542-544 | the uploaded keys that are not keys of the project file, in uploaded order |
| Trails.MissingProps | apps/web/AdminWebpage/src/pages/Trails.tsx:545-547 | the project file's keys that are not uploaded keys, in order |
| Trails.SharedProps | apps/web/AdminWebpage/src/pages/Trails.tsx:548-550 | the project file's keys that are also uploaded keys, in order |
| Trails.PropSplit | apps/web/AdminWebpage/src/pages/Trails.tsx:542-550 | new = uploaded minus existing, missing = existing minus uploaded, shared = existing and uploaded; missing and shared together account for every existing key |
| Trails.SplitSizes | apps/web/AdminWebpage/src/pages/Trails.tsx:545-550 | the missing and shared lists partition the existing keys |
| Trails.Ids | apps/web/AdminWebpage/src/pages/Trails.tsx:573-578 | the id of each feature, in order |
| Trails.Unmatched | apps/web/AdminWebpage/src/pages/Trails.tsx:580-584 | the features whose id is non-empty and not an id of the other file, in file order |
| Trails.Summaries | apps/web/AdminWebpage/src/pages/Trails.tsx:586-589 | each feature becomes its id and name, one for one |
| Trails.DiffFeatures | apps/web/AdminWebpage/src/pages/Trails.tsx:580-600 | at most 20 entries, as many as the unmatched features allow; each has a non-empty id absent from the other file and describes a feature of this file |
| Trails.DiffFeaturesInOrder | apps/web/AdminWebpage/src/pages/Trails.tsx:580-589 | the entries are the summaries of a prefix of the unmatched features, so file order is kept |
| Trails.SharedIdNeverListed | apps/web/AdminWebpage/src/pages/Trails.tsx:580-600 | a feature whose id occurs in the other file is never listed, in either direction |
| Trails.NewFeatures | apps/web/AdminWebpage/src/pages/Trails.tsx:580-589 | the difference taken from the upload against the project file |
| Trails.MissingFeatures | apps/web/AdminWebpage/src/pages/Trails.tsx:591-600 | the difference taken from the project file against the upload |
| Trails.CompareGeo | apps/web/AdminWebpage/src/pages/Trails.tsx:499-612 | the counts are the feature counts; the property lists are the set differences and intersection of the two summaries; the feature lists are the two directions of the difference |
| Trails.ImportedMarker | apps/web/AdminWebpage/src/pages/Trails.tsx:266-273 | the marker of element `i`: `String(id ?? "uploaded-<now>-<i>")`, `String(title ?? "Imported marker")`, `Number(lat)`, `Number(lon)`, origin uploaded, and the file's name |
| Trails.ImportedFrom | apps/web/AdminWebpage/src/pages/Trails.tsx:266-273 | one marker per element, element i built with index start + i |
| Trails.ImportMarkers | apps/web/AdminWebpage/src/pages/Trails.tsx:262-273 | a non-array is rejected, and so is an array with a null element; otherwise there is one uploaded marker per element, tagged with the file name, with id `String(item.id ?? "uploaded-{now}-{i}")` and title `String(item.title ?? "Imported marker")` |
| Trails.MarkerWorkspace.constructor | apps/web/AdminWebpage/src/pages/Trails.tsx:158-167 | no uploaded or manual markers and empty inputs; the first folder marker is selected |
| Trails.MarkerWorkspace.AddManualMarker | apps/web/AdminWebpage/src/pages/Trails.tsx:221-243 | an empty or unparsable latitude or longitude changes nothing; otherwise exactly one manual marker is appended and selected, titled "Manual marker" when no title was typed, and the three inputs are cleared |
| Trails.MarkerWorkspace.DeleteWorkspaceMarker | apps/web/AdminWebpage/src/pages/Trails.tsx:246-252 | every uploaded or manual marker with the id goes and the rest keep their order; folder markers are untouched; the selection is cleared only if it was that id |
| Trails.MarkerWorkspace.ImportMarkerFile | apps/web/AdminWebpage/src/pages/Trails.tsx:254-286 | a rejected file changes nothing; an accepted one replaces the uploaded markers and selects the first, if there is one; manual markers and inputs are kept |
| Trails.DeleteIdempotent | apps/web/AdminWebpage/src/pages/Trails.tsx:247-248 | deleting the same id twice is the same as deleting it once |
| Trails.FilterIdempotent | apps/web/AdminWebpage/src/pages/Trails.tsx:247-248 | filtering twice by the same test is filtering once |
| JsValue.Lookup | apps/web/AdminWebpage/src/pages/Trails.tsx:553-558 | a property is found exactly when the object has a member of that name |
| JsValue.Coalesce | apps/web/AdminWebpage/src/pages/Trails.tsx:553-559 | `a ?? b` is a unless a is null or undefined, otherwise b |
| JsValue.MemberNames | apps/web/AdminWebpage/src/pages/Trails.tsx:531 | `Object.keys` of an object lists its member names in order |
| JsValue.IndexNames | apps/web/AdminWebpage/src/pages/Trails.tsx:531 | `Object.keys` of an array lists "0" to "n-1" |
| MapScreen.ClampRegion | apps/mobile/pages/MapScreen.tsx:132-139 | the centre ends inside the widened county box; an in-bounds coordinate is unchanged and one outside moves to the nearest bound; the deltas are never changed |
| MapScreen.ClampIdempotent | apps/mobile/pages/MapScreen.tsx:132-139 | clamping a clamped region changes nothing |
| MapScreen.PressStops | apps/mobile/pages/MapScreen.tsx:217-231 | with one stop the press completes `[origin, p]`; with none or two or more it starts over with `[p]` |
| MapScreen.ThreePresses | apps/mobile/pages/MapScreen.tsx:213-232 | two presses from nothing give start and destination; a third starts over |
| MapScreen.SelectStops | apps/mobile/pages/MapScreen.tsx:309-331 | field 0: `[] -> [c]`, `[x] -> [c, x]`, otherwise index 0 is replaced; other fields: `[] -> [c]`, `[x] -> [x, c]`, otherwise index 1 is replaced; later stops are kept |
| MapScreen.Suggestions | apps/mobile/pages/MapScreen.tsx:280-291 | none for a blank trimmed query; otherwise at most 20 places whose lower-cased name contains the trimmed lower-cased query, and every match when fewer than 20 are shown |
| MapScreen.SuggestionsArePrefix | apps/mobile/pages/MapScreen.tsx:287-289 | the suggestions are the first `min(20, matches)` matching places, in index order |
| MapScreen.ToggleFilter | apps/mobile/pages/MapScreen.tsx:366-370 | the name is in the result exactly when it was not in the list before; every other name keeps its membership |
| MapScreen.ToggleTwiceAbsent | apps/mobile/pages/MapScreen.tsx:366-370 | toggling an absent name twice gives the list back exactly |
| MapScreen.ToggleTwicePresent | apps/mobile/pages/MapScreen.tsx:366-370 | toggling a present name twice restores the set of names, with that name moved to the end |
| MapScreen.FilterNoneRemoved | apps/mobile/pages/MapScreen.tsx:368 | filtering out a name not in the list leaves the list as it was |
| MapScreen.RoutePlanner.constructor | apps/mobile/pages/MapScreen.tsx:235-245 | the initial state: no stops, no route, two empty inputs, no filters, "Walk", no suggestions |
| MapScreen.RoutePlanner.Press | apps/mobile/pages/MapScreen.tsx:213-232 | the stops follow `PressStops`; a completing press requests a route from the origin to the point, and the other presses clear the route |
| MapScreen.RoutePlanner.PressMarker | apps/mobile/pages/MapScreen.tsx:248-270 | `latitude`/`longitude` take priority over `lat`/`lng`; a marker without both coordinates changes no stop, request or route; otherwise it acts as a press at that point: the stops follow `PressStops`, a completing press requests the route from the old stop and keeps the route shown, any other press clears the route; inputs, filters, mode, suggestions and active field are kept |
| MapScreen.RoutePlanner.ChangeSearchInput | apps/mobile/pages/MapScreen.tsx:273-292 | only that field's text changes, and the suggestions become those for the text; stops, requests, route, filters, mode and active field are kept |
| MapScreen.RoutePlanner.SelectSuggestion | apps/mobile/pages/MapScreen.tsx:295-336 | the field shows the place name, the suggestions close, the stops follow `SelectStops`, and the route is cleared; requests, filters and mode are kept |
| MapScreen.RoutePlanner.AddStop | apps/mobile/pages/MapScreen.tsx:340-347 | with fewer than 5 fields an empty one goes in just before the last; the first and last fields are kept, and the count never passes 5; every other part of the screen is unchanged |
| MapScreen.RoutePlanner.ToggleDetailFilter | apps/mobile/pages/MapScreen.tsx:366-370 | the active filters become `ToggleFilter` of the old ones; every other part of the screen is unchanged |
| MapScreen.RoutePlanner.SearchStart | apps/mobile/pages/MapScreen.tsx:350-364 | the suggestions close; a route is requested from stop 0 to stop 1 only when there are two stops; stops, inputs, route, filters and mode are kept |
| MapScreen.RoutePlanner.Clear | apps/mobile/pages/MapScreen.tsx:235-245 | two empty inputs, no stops, no route, no filters, "Walk" and no suggestions |
| PageEditor.SpliceOut | apps/web/AdminWebpage/src/pages/AppPageEditor.tsx:122-145 | a valid index drops exactly that element and keeps the order; an index past the end changes nothing; the length falls by one unless nothing was removed |
| PageEditor.SpliceOutKeepsOthers | apps/web/AdminWebpage/src/pages/AppPageEditor.tsx:122-145 | after removing index i, the elements before i stay where they were and the later ones move one place left |
| PageEditor.ParseTags | apps/web/AdminWebpage/src/pages/AppPageEditor.tsx:90 | no stored tags, or an empty string, loads as no tags; any other string loads as at least one tag |
| PageEditor.TagsRoundTrip | apps/web/AdminWebpage/src/pages/AppPageEditor.tsx:90 | joining tags with commas and splitting them again gives the same list, for any list of non-empty, comma-free tags |
| PageEditor.SingleEmptyTagLost | apps/web/AdminWebpage/src/pages/AppPageEditor.tsx:90 | the one list that does not survive: a single empty tag comes back as no tags |
| PageEditor.SubmitContent | apps/web/AdminWebpage/src/pages/AppPageEditor.tsx:178-202 | the content carries the form and the categories, and carries trail details, equal to the trail fields, exactly when the type is 'trail' |
| PageEditor.OrEmpty | apps/web/AdminWebpage/src/pages/AppPageEditor.tsx:105-108 | `x \|\| ''`: a non-empty text is kept and a missing or empty one becomes "" |
| PageEditor.LoadTrail | apps/web/AdminWebpage/src/pages/AppPageEditor.tsx:104-109 | every trail field comes back set, with "" replacing a missing or empty one |
| PageEditor.LoadPage | apps/web/AdminWebpage/src/pages/AppPageEditor.tsx:82-110 | the tags come from their string, the type is lower-cased, published only for an explicit true, and trail details are loaded exactly when the stored type is exactly 'trail' and details are present |
| PageEditor.LowerIdempotent | apps/web/AdminWebpage/src/pages/AppPageEditor.tsx:86-87 | lower-casing twice is the same as lower-casing once, so a loaded type or city is stable when saved and loaded again |
| PageEditor.SaveLoadTrail | apps/web/AdminWebpage/src/pages/AppPageEditor.tsx:192-226 | a trail page saved and loaded again keeps its type, its categories, its storable tags, and its trail details with "" for unset fields |
| PageEditor.NonTrailHasNoDetails | apps/web/AdminWebpage/src/pages/AppPageEditor.tsx:192-201 | a page whose type is not exactly 'trail' is saved and loaded without trail details |
| PageEditor.Submit | apps/web/AdminWebpage/src/pages/AppPageEditor.tsx:204-226 | with both id and title in the address the request updates that page; otherwise it adds a page with id = count + 1 and the form's title; both send the same content, joined tags, gisId, type and city |
| PageEditor.Editor.constructor | apps/web/AdminWebpage/src/pages/AppPageEditor.tsx:15-31 | the empty form, no categories, empty tag and link inputs, no open category (index -1) |
| PageEditor.Editor.AddTag | apps/web/AdminWebpage/src/pages/AppPageEditor.tsx:128-138 | a non-empty tag not yet present is appended and the input cleared; otherwise form and input are unchanged; categories, link inputs, open content and open index are kept |
| PageEditor.Editor.RemoveTag | apps/web/AdminWebpage/src/pages/AppPageEditor.tsx:140-145 | the tags become `SpliceOut` of the old tags at the index; nothing else changes |
| PageEditor.Editor.AddLink | apps/web/AdminWebpage/src/pages/AppPageEditor.tsx:396-400 | a link with both a name and a URL is appended and the inputs cleared; otherwise nothing changes; categories, tag input, open content and open index are kept |
| PageEditor.Editor.AddCategory | apps/web/AdminWebpage/src/pages/AppPageEditor.tsx:67-71 | a category named "Category n+1" with empty content is appended, n being the old count; nothing else changes |
| PageEditor.Editor.RemoveCategory | apps/web/AdminWebpage/src/pages/AppPageEditor.tsx:122-126 | the categories become `SpliceOut` of the old ones at the index; nothing else changes |
| PageEditor.Editor.EditCategoryName | apps/web/AdminWebpage/src/pages/AppPageEditor.tsx:151-155 | only the name of the category at that index changes; nothing else changes |
| PageEditor.Editor.EditCategoryContent | apps/web/AdminWebpage/src/pages/AppPageEditor.tsx:159-166 | only the content of the category at that index changes, and the open content view follows when that category is the open one; nothing else changes |
| PageEditor.AddTagKeepsClean | apps/web/AdminWebpage/src/pages/AppPageEditor.tsx:128-138 | tags added through `AddTag` stay non-empty and free of duplicates |
| PageEditor.EditTouchesOneCategory | apps/web/AdminWebpage/src/pages/AppPageEditor.tsx:151-155 | an edit of one category's name keeps its content, the count and every other category |
| SearchBar.ByNameTotalPreorder | apps/web/AdminWebpage/src/components/SearchBar.tsx:22 | the name comparison is total and transitive, so the sort is well defined |
| SearchBar.MatchesPark | apps/web/AdminWebpage/src/components/SearchBar.tsx:21 | the park filter: non-null attributes and name, the lower-cased name containing the lower-cased query |
| SearchBar.ToHit | apps/web/AdminWebpage/src/components/SearchBar.tsx:24-30 | the projection of a kept park: source `Location`, its `OBJECTID` and its name |
| SearchBar.Locations | apps/web/AdminWebpage/src/components/SearchBar.tsx:21-34 | the location hits: filtered, sorted by name, then made distinct by name |
| SearchBar.LocationHits | apps/web/AdminWebpage/src/components/SearchBar.tsx:21-30 | exactly the features with non-null attributes and name whose lower-cased name contains the lower-cased query, each as a Location hit with its OBJECTID and name |
| SearchBar.DistinctByName | apps/web/AdminWebpage/src/components/SearchBar.tsx:32-34 | the kept entries come from the input and are no more than it |
| SearchBar.DistinctByNameMeaning | apps/web/AdminWebpage/src/components/SearchBar.tsx:32-34 | no two kept entries share a name; an entry is kept exactly when no earlier entry has its name |
| SearchBar.DistinctByNameSources | apps/web/AdminWebpage/src/components/SearchBar.tsx:32-34 | every kept entry is the first occurrence of its name |
| SearchBar.DistinctByNameDistinct | apps/web/AdminWebpage/src/components/SearchBar.tsx:32-34 | the kept entries have pairwise different names |
| SearchBar.DistinctByNameKeepsFirsts | apps/web/AdminWebpage/src/components/SearchBar.tsx:32-34 | every first occurrence of a name is kept |
| SearchBar.DistinctByNameSorted | apps/web/AdminWebpage/src/components/SearchBar.tsx:22-34 | dropping later duplicates keeps a name-sorted list sorted |
| SearchBar.SettingHits | apps/web/AdminWebpage/src/components/SearchBar.tsx:36-44 | exactly the settings whose lower-cased label contains the lower-cased query, as Settings hits with OBJECTID -1: none other, and none of them missing |
| SearchBar.SettingHitsInOrder | apps/web/AdminWebpage/src/components/SearchBar.tsx:36-44 | one hit per matching setting, carrying its label, in the order of the settings file |
| SearchBar.Reverse | apps/web/AdminWebpage/src/components/SearchBar.tsx:37-45 | element i of the result is element n-1-i of the input |
| SearchBar.Unshift | apps/web/AdminWebpage/src/components/SearchBar.tsx:37-45 | putting each matching setting in front, one after the other, gives the matches reversed, followed by the location hits |
| SearchBar.Lookup | apps/web/AdminWebpage/src/components/SearchBar.tsx:16-48 | the results are the first five of: the matching settings reversed, then the location hits |
| SearchBar.LocationsAreLocations | apps/web/AdminWebpage/src/components/SearchBar.tsx:24-34 | every location hit has source Location |
| SearchBar.LocationsMeaning | apps/web/AdminWebpage/src/components/SearchBar.tsx:21-34 | the location hits are name-sorted, have distinct names and contain the query, and every matching feature's name is among them |
| SearchBar.FirstIndexOfName | apps/web/AdminWebpage/src/components/SearchBar.tsx:33 | `findIndex` by name: the first position with the same name, at or before k |
| SearchBar.KeepsFirstObjectId | apps/web/AdminWebpage/src/components/SearchBar.tsx:22-34 | each kept name is the entry first in name order, so it carries that entry's OBJECTID |
| SearchBar.SettingsFirst | apps/web/AdminWebpage/src/components/SearchBar.tsx:37-46 | at most five results; the settings come first with the last match on top, and everything after them is a location hit |
| SearchBar.ShowsDropdown | apps/web/AdminWebpage/src/components/SearchBar.tsx:55 | the dropdown shows exactly when both the input and the results are non-empty |
| AnalyticsPage.PageCount | apps/web/AdminWebpage/src/pages/Analytics.tsx:252-253 | `Math.ceil(n / 5)`: the fewest pages of five that hold n rows |
| AnalyticsPage.PageRows | apps/web/AdminWebpage/src/pages/Analytics.tsx:240 | page p shows at most five rows, exactly the rows from index (p-1)*5 on, in order, cut at the end of the table |
| AnalyticsPage.RowOnItsPage | apps/web/AdminWebpage/src/pages/Analytics.tsx:240-252 | every row is entry i % 5 of page i / 5 + 1, a page within the page count |
| AnalyticsPage.PastLastPageEmpty | apps/web/AdminWebpage/src/pages/Analytics.tsx:240-252 | a page past the page count shows no rows |
| AnalyticsPage.TablePager.constructor | apps/web/AdminWebpage/src/pages/Analytics.tsx:8 | the table starts on page 1 |
| AnalyticsPage.TablePager.Previous | apps/web/AdminWebpage/src/pages/Analytics.tsx:251 | step back one page unless on page 1; the page stays within [1, page count] |
| AnalyticsPage.TablePager.Next | apps/web/AdminWebpage/src/pages/Analytics.tsx:253 | step forward one page while below the page count; the page stays within [1, page count] |
| AnalyticsPage.TablePager.PageLabel | apps/web/AdminWebpage/src/pages/Analytics.tsx:252 | the label reads "Page p of n" with n the page count |
| AnalyticsPage.TwoFullPages | apps/web/AdminWebpage/src/pages/Analytics.tsx:174-185 | the ten fixed rows make two full pages, and page 2 starts with the sixth row |
| AnalyticsPage.Lines | apps/web/AdminWebpage/src/pages/Analytics.tsx:191-193 | one rendered line per row, in row order |
| AnalyticsPage.TableCsv | apps/web/AdminWebpage/src/pages/Analytics.tsx:190-193 | the export is the data-URI prefix, the header, a newline, then each row's line followed by a newline |
| AnalyticsPage.TableBody | apps/web/AdminWebpage/src/pages/Analytics.tsx:191-193 | the `forEach` builds one newline-terminated line per row, in order |
| AnalyticsPage.TableCsvLines | apps/web/AdminWebpage/src/pages/Analytics.tsx:190-193 | when no page name holds a newline, splitting the export at newlines gives the header, each row's line in order, and a final empty piece |
| AnalyticsPage.TableLineCells | apps/web/AdminWebpage/src/pages/Analytics.tsx:192 | a table line with no comma in the page name splits back into the page, today's and the past week's counts |
| AnalyticsPage.DefinedPoints | apps/web/AdminWebpage/src/pages/Analytics.tsx:157-158 | the points that have both coordinates, as many as the data has |
| AnalyticsPage.ChartRows | apps/web/AdminWebpage/src/pages/Analytics.tsx:151-162 | rows numbered from n, one per point, in order |
| AnalyticsPage.ChartCsv | apps/web/AdminWebpage/src/pages/Analytics.tsx:151-163 | the export is the prefix and header, then one line per point with both coordinates, numbered from 1; points missing a coordinate are skipped |
| AnalyticsPage.DefinedPointsMeaning | apps/web/AdminWebpage/src/pages/Analytics.tsx:158 | a coordinate pair is exported exactly when a point with both of those coordinates is in the data |
| AnalyticsPage.ChartRowsConsecutive | apps/web/AdminWebpage/src/pages/Analytics.tsx:151-163 | the chart rows number 1, 2, ... with no gap, there is one per defined point, and each comes from a point that has both coordinates |
| SavedStore.Dedup | apps/mobile/lib/savedStore.js:10 | `new Set(list)`: no id twice, and exactly the ids of the list |
| SavedStore.DedupDistinct | apps/mobile/lib/savedStore.js:10-15 | a list without duplicates, as `putSet` writes it, reads back as the same list |
| SavedStore.Remove | apps/mobile/lib/savedStore.js:27 | `delete` keeps every other id and drops that one, and keeps a set a set |
| SavedStore.Toggled | apps/mobile/lib/savedStore.js:25-28 | the written list has no duplicates, holds the id exactly when it was not saved before, and keeps every other id's membership |
| SavedStore.Ids | apps/mobile/lib/savedStore.js:8-11 | the loaded set has no duplicates and is empty when nothing is stored |
| SavedStore.ToggleTwice | apps/mobile/lib/savedStore.js:25-30 | toggling the same id twice gives back the same set of ids |
| SavedStore.ToggleTwiceAbsent | apps/mobile/lib/savedStore.js:25-30 | toggling an unsaved id twice gives back exactly the stored list |
| SavedStore.Store.constructor | apps/mobile/lib/savedStore.js:5-11 | nothing is stored under the key at first |
| SavedStore.Store.IsSaved | apps/mobile/lib/savedStore.js:19-22 | true exactly when the id is in the stored set |
| SavedStore.Store.ToggleSaved | apps/mobile/lib/savedStore.js:25-30 | the stored list becomes `Toggled` of the old one, and the answer is true exactly when the id was not saved before |
| SavedStore.Store.GetSavedItems | apps/mobile/lib/savedStore.js:33-36 | the locations whose id is in the stored set |
| SavedStore.SavedItems | apps/mobile/lib/savedStore.js:35 | exactly the locations whose id is saved |
| SavedStore.NothingStored | apps/mobile/lib/savedStore.js:8-36 | with nothing stored no id is saved and no location is listed |
| SavedStore.SavedItemsInOrder | apps/mobile/lib/savedStore.js:35 | the saved locations keep the order of the location list |
| SavedScreen.Keys | apps/mobile/pages/SavedScreen.tsx:28-39 | the folder keys are distinct and are exactly the keys (type + "s") of the saved items |
| SavedScreen.Group | apps/mobile/pages/SavedScreen.tsx:29-32 | a folder holds exactly the items whose key is its key |
| SavedScreen.GroupSnoc | apps/mobile/pages/SavedScreen.tsx:32 | one more item extends its own folder at the end and no other |
| SavedScreen.KeysSnoc | apps/mobile/pages/SavedScreen.tsx:29-39 | one more item adds its key at the end when the key is new, and nothing otherwise |
| SavedScreen.StepNewKey | apps/mobile/pages/SavedScreen.tsx:29-32 | a new key opens a folder holding just the item and keeps the grouping exact |
| SavedScreen.StepOldKey | apps/mobile/pages/SavedScreen.tsx:32 | an item with a known key is pushed onto that folder and keeps the grouping exact |
| SavedScreen.Categorize | apps/mobile/pages/SavedScreen.tsx:28-39 | the folders come in order of first appearance, there is one per key, and each holds exactly the items of that key, in saved order |
| SavedScreen.CountsAddUp | apps/mobile/pages/SavedScreen.tsx:28-40 | the folder counts add up to the number of saved items |
| SavedScreen.OneFolderEach | apps/mobile/pages/SavedScreen.tsx:29-32 | every saved item is in the folder of its own key and in no other |
| SavedScreen.SavedOrderInFolder | apps/mobile/pages/SavedScreen.tsx:32 | two items of the same folder keep their saved order inside it |
| SavedScreen.ShowsPlaceholder | apps/mobile/pages/SavedScreen.tsx:21-26 | the placeholder shows exactly when there would be no folders |
| ExploreScreen.Shown | apps/mobile/pages/ExploreScreen.tsx:17-25 | the first page * 5 of the matching locations, in order: top-level (parent exactly null), neither Lodging nor Business, name containing the search text ignoring case |
| ExploreScreen.Featured | apps/mobile/pages/ExploreScreen.tsx:18-23 | a top-level location (parent exactly `null`), neither Lodging nor Business, whose name contains the search text case-insensitively |
| ExploreScreen.ShowsLoadMore | apps/mobile/pages/ExploreScreen.tsx:67-69 | the button shows while fewer locations are shown than the whole list holds |
| ExploreScreen.LoadMoreNeverEnds | apps/mobile/pages/ExploreScreen.tsx:24-33 | one location the filter drops keeps the button on every page for ever, because the comparison is with the unfiltered list |
| ExploreScreen.LoadMoreEndsWhenAllMatch | apps/mobile/pages/ExploreScreen.tsx:24-33 | when every location matches, the button goes once the page covers them all |
| ExploreScreen.PagesGrow | apps/mobile/pages/ExploreScreen.tsx:24 | each page shows the previous page's locations first, and possibly more |
| ExploreScreen.Explore.constructor | apps/mobile/pages/ExploreScreen.tsx:13-14 | empty search text on page 1 |
| ExploreScreen.Explore.ChangeSearch | apps/mobile/pages/ExploreScreen.tsx:39-42 | the new text, and back to page 1 |
| ExploreScreen.Explore.LoadMore | apps/mobile/pages/ExploreScreen.tsx:29-33 | the page grows by one exactly when the button would show; the text is kept |
| DetailScreen.FindLocation | apps/mobile/pages/DetailScreen.tsx:15-30 | none exactly when no location has the id; otherwise the first location with that id |
| DetailScreen.IsNearby | apps/mobile/pages/DetailScreen.tsx:32 | another location (a different id) that is a child of this one or is its parent |
| DetailScreen.Nearby | apps/mobile/pages/DetailScreen.tsx:32 | exactly the other locations that are children of this one or are its parent |
| DetailScreen.SiblingsExcluded | apps/mobile/pages/DetailScreen.tsx:32 | a sibling, sharing the parent, is never in the nearby strip |
| DetailScreen.NearbyInOrder | apps/mobile/pages/DetailScreen.tsx:32 | the nearby strip keeps the order of the location list |
| DetailScreen.TileDistance | apps/mobile/pages/DetailScreen.tsx:66 | a tile shows the distance exactly when the location has a parent id and a non-empty distance text |
| DetailScreen.ShowsNearbySection | apps/mobile/pages/DetailScreen.tsx:60 | the section renders exactly when some location is nearby |
| TagResults.Results | apps/mobile/pages/TagResultsScreen.tsx:10-12 | nothing for a missing or empty tag; otherwise exactly the locations whose activity tags include the tag or whose type is the tag |
| TagResults.Tagged | apps/mobile/pages/TagResultsScreen.tsx:12 | a location matches a tag when its activity tags (missing ones count as `[]`) include the tag or its type equals it |
| TagResults.UntaggedOnlyByType | apps/mobile/pages/TagResultsScreen.tsx:12 | a location without activity tags is found exactly when its type is the tag |
| TagResults.ResultsInOrder | apps/mobile/pages/TagResultsScreen.tsx:12 | the results keep the order of the location list |
| TagResults.ShowsNoResults | apps/mobile/pages/TagResultsScreen.tsx:14-20 | the "No results" view shows exactly when the tag is missing or empty or no location matches it |
| Routing.CoordStringFields | apps/backend/routingSpecificApi/fastapi/main.py:42-43 | the coordinate string splits at ';' into the two points and each point at ',' into longitude then latitude, when the number format uses neither separator |
| Routing.CoordString | apps/backend/routingSpecificApi/fastapi/main.py:43 | the OSRM coordinate string: longitude and latitude of the origin, then of the destination |
| Routing.NoRouteFound | apps/backend/routingSpecificApi/fastapi/main.py:71 | the no-route test: `code` is not `Ok`, or `routes` is absent or empty |
| Routing.Swapped | apps/backend/routingSpecificApi/fastapi/main.py:80-84 | defined exactly when every position has two numbers; then one map point per position, in order, latitude the second number and longitude the first |
| Routing.Unswapped | apps/backend/routingSpecificApi/fastapi/main.py:80-84 | back to GeoJSON order: longitude first, then latitude |
| Routing.SwapRoundTrip | apps/backend/routingSpecificApi/fastapi/main.py:80-84 | swapping loses nothing: putting longitude first again gives back the positions |
| Routing.Route | apps/backend/routingSpecificApi/fastapi/main.py:51-90 | 502 with "OSRM error: ..." for a failed call and with "OSRM status s: text" for a status other than 200, and only then; an empty route exactly when the code is not "Ok" or there are no routes; otherwise the first route, swapped, with its distance and duration |
| Routing.FoundRouteMeaning | apps/backend/routingSpecificApi/fastapi/main.py:75-90 | a found route has one map point per GeoJSON position, in order, and the positions can be recovered from it |
| PageSearch.ByIdDescTotalPreorder | apps/web/AdminWebpage/src/pages/AppPageSearch.tsx:23-32 | the comparator `b.id - a.id` orders pages as a total preorder, so the sort is well defined |
| PageSearch.SortPages | apps/web/AdminWebpage/src/pages/AppPageSearch.tsx:23-32 | the array is sorted in place and ends equal to the stable sort by descending id of what it held |
| PageSearch.Sink | apps/web/AdminWebpage/src/pages/AppPageSearch.tsx:23-32 | one insertion step: the prefix before i is kept and the suffix from i becomes the element inserted into the sorted rest |
| PageSearch.SinkResult | apps/web/AdminWebpage/src/pages/AppPageSearch.tsx:23-32 | the array an insertion step leaves is that element inserted into the suffix |
| PageSearch.NewestFirst | apps/web/AdminWebpage/src/pages/AppPageSearch.tsx:23-32 | the shown list is a permutation of the fetched pages, newest (highest id) first, with pages of equal id kept in the order the server sent them |
| PageSearch.ReloadsAllMeaning | apps/web/AdminWebpage/src/pages/AppPageSearch.tsx:30 | the full list is reloaded exactly when the query is blank and every filter is at its default |
| PageSearch.ReloadsAll | apps/web/AdminWebpage/src/pages/AppPageSearch.tsx:30 | the reload test: the query trims to nothing under JavaScript's `trim`, no city, no type, and published unchecked |
| PageSearch.HandleSearch | apps/web/AdminWebpage/src/pages/AppPageSearch.tsx:28-38 | a blank query with default filters shows the fetched pages sorted newest first; any other search shows the rows of the reply's `pages` property, which is none for either body the search route sends, and leaves the fetched array alone |
| PageSearch.PagesProperty | apps/web/AdminWebpage/src/pages/AppPageSearch.tsx:37 | `results.pages`: the search reply is an array of pages or an error object, and neither has a `pages` property |
| PageSearch.SearchRowsAsWritten | apps/web/AdminWebpage/src/pages/AppPageSearch.tsx:36-37 | the rows shown after a search, as written: those rendered from `results.pages` |
| PageSearch.Rendered | apps/web/AdminWebpage/src/pages/AppPageSearch.tsx:88 | an undefined `pages` state renders no rows; an array renders its pages |
| PageSearch.SearchShowsNothing | apps/web/AdminWebpage/src/pages/AppPageSearch.tsx:36-37 | as written a search that does not reload shows an empty table, even when the server found pages |
| PageSearch.SearchRows | apps/web/AdminWebpage/src/pages/AppPageSearch.tsx:36-37 | corrected: a list reply shows exactly its pages, an error reply none |
| PageSearch.SearchRowsCorrected | apps/web/AdminWebpage/src/pages/AppPageSearch.tsx:36-37 | the corrected rows differ from the ones as written exactly when the server found some page, and hold exactly the pages of a list reply |
| PageSearch.AfterDelete | apps/web/AdminWebpage/src/pages/AppPageSearch.tsx:93-97 | a falsy parsed reply keeps the list; a truthy one keeps exactly the pages with another id |
| PageSearch.AfterDeleteReplyAsWritten | apps/web/AdminWebpage/src/pages/AppPageSearch.tsx:93-97 | a reply with no JSON body (the 204 of a successful delete) makes the handler throw and keeps the list; any other reply filters by its body's truthiness, whatever the status |
| PageSearch.DeleteReplyInverted | apps/web/AdminWebpage/src/pages/AppPageSearch.tsx:93-97 | as written a 204 leaves the deleted page listed, and a 401 with a `detail` body removes it |
| PageSearch.AfterDeleteReply | apps/web/AdminWebpage/src/pages/AppPageSearch.tsx:93-97 | corrected: exactly the pages with another id stay after a 2xx reply, and the list is kept after any other |
| PageSearch.DeleteReplyCorrected | apps/web/AdminWebpage/src/pages/AppPageSearch.tsx:93-97 | corrected and as-written agree whenever the body's truthiness matches success; a 204 removes the page and a 401 keeps the list |
| PageSearch.DeleteKeepsOrder | apps/web/AdminWebpage/src/pages/AppPageSearch.tsx:96 | the pages that stay keep their order |
| PageSearch.DeleteKeepsNewestFirst | apps/web/AdminWebpage/src/pages/AppPageSearch.tsx:96 | a list shown newest first stays newest first after a delete |
| PageSearch.DeleteAbsent | apps/web/AdminWebpage/src/pages/AppPageSearch.tsx:96 | deleting an id that is not listed leaves the list as it was |
| PageSearch.DeleteTwice | apps/web/AdminWebpage/src/pages/AppPageSearch.tsx:96 | deleting the same page twice is the same as deleting it once |
| PageSearch.DeleteShrinks | apps/web/AdminWebpage/src/pages/AppPageSearch.tsx:96 | a delete that goes through shortens a list that held the id |
| PageSearch.WithoutId | apps/web/AdminWebpage/src/pages/AppPageSearch.tsx:96 | the filter `p.id !== page.id` that removes the deleted page |
| PageSearch.TokenText | apps/web/AdminWebpage/src/pages/AppPageSearch.tsx:94 | the token as the template literal prints it: the stored token, or `null` when none is stored |
| PageSearch.DeleteAuthorizationAsWritten | apps/web/AdminWebpage/src/pages/AppPageSearch.tsx:94 | the authorization the delete button passes: `Bearer ` followed by the token text |
| PageSearch.DeleteAuthorization | apps/web/AdminWebpage/src/pages/AppPageSearch.tsx:94 | the corrected authorization: the bare stored token (empty when none), as `getPages` on line 21 passes it |
| PageSearch.AuthHeader | apps/web/AdminWebpage/src/services/ApiService.ts:150 | the header `ApiService.delete` sends: `Bearer ` followed by a non-empty authorization, otherwise the empty string |
| PageSearch.DoubleBearer | apps/web/AdminWebpage/src/pages/AppPageSearch.tsx:94 | as written the header is "Bearer " twice followed by the token, and "Bearer Bearer null" without a token |
| PageSearch.DoubleBearerExample | apps/web/AdminWebpage/src/pages/AppPageSearch.tsx:94 | for the token "t" the header sent is "Bearer Bearer t", not "Bearer t" |
| PageSearch.DeleteHeader | apps/web/AdminWebpage/src/services/ApiService.ts:150 | passing the bare token, the header is "Bearer " followed by exactly the stored token, or empty without a token |
| DataForm.ToNumber | apps/web/AdminWebpage/src/components/DataForm.tsx:64 | `Number(...)` always gives a number or NaN, never null or undefined |
| DataForm.Labels | apps/web/AdminWebpage/src/components/DataForm.tsx:19 | one label per missing field, in order |
| DataForm.ScoreText | apps/web/AdminWebpage/src/components/DataForm.tsx:24 | `${score}`: the formatted number, or `NaN`, `null` or `undefined` |
| DataForm.MissingAlert | apps/web/AdminWebpage/src/components/DataForm.tsx:19 | the alert naming the missing fields' labels, each on its own `- ` line |
| DataForm.SubmittedAlert | apps/web/AdminWebpage/src/components/DataForm.tsx:24 | the success alert with the name, the description and the score as text |
| DataForm.MissingFields | apps/web/AdminWebpage/src/components/DataForm.tsx:12-16 | Name is reported exactly when the name is blank in the sense of `String.prototype.trim`, Description likewise, Score exactly when the score is null or undefined, in that fixed order |
| Common.TrimEmptyIffBlank | apps/web/AdminWebpage/src/components/DataForm.tsx:14-15 | a text trims to nothing exactly when every character is white space for that runtime (JavaScript's `trim` or Python's `strip`) |
| Common.BlankDiffers | apps/backend/api/app/database/repository.py:276 | the two runtimes' white space differs: U+3000 is blank for both, U+001F only for Python's `strip`, U+FEFF only for JavaScript's `trim` |
| DataForm.ScoreNeverMissing | apps/web/AdminWebpage/src/components/DataForm.tsx:12-16 | a score read with `Number` is never reported missing, so a submission goes through exactly when name and description are not blank |
| DataForm.CollectMissing | apps/web/AdminWebpage/src/components/DataForm.tsx:12-16 | the successive pushes give exactly `MissingFields` |
| DataForm.Form.constructor | apps/web/AdminWebpage/src/components/DataForm.tsx:4-6 | empty name and description, score 50 |
| DataForm.Form.SetName | apps/web/AdminWebpage/src/components/DataForm.tsx:39 | only the name changes |
| DataForm.Form.SetDescription | apps/web/AdminWebpage/src/components/DataForm.tsx:49 | only the description changes |
| DataForm.Form.SetScore | apps/web/AdminWebpage/src/components/DataForm.tsx:64 | only the score changes, to `Number` of the input |
| DataForm.Form.Reset | apps/web/AdminWebpage/src/components/DataForm.tsx:70 | empty name and description and a score of 0, not the initial 50 |
| DataForm.Form.HandleSubmit | apps/web/AdminWebpage/src/components/DataForm.tsx:8-30 | with a field missing the alert lists the missing fields and the form is kept; otherwise the submission is announced and the fields are cleared, with a score of 0 |

## Left out

- The haversine distance of `nearby.ts` is a function parameter. The properties are proved for any distance function.
- Lower-casing is ASCII only. `localeCompare` and the default string order are code-point order.
- Floating-point coordinates and distances are Dafny reals without rounding. JSON numbers in `JsValue` are integers.
- Number formatting is a function parameter wherever text is built from a float or a date. This covers Python's float formatting in the OSRM coordinate string, `toLocaleDateString`/`toLocaleTimeString` in the chart export and `${score}` in the data form.
- The network, HTTP clients, DynamoDB, AsyncStorage and `localStorage` become inputs:
  - a lookup oracle, a reply value or a map;
  - a `scanned` sequence for what a DynamoDB scan visits;
  - a stored list for the saved-id key.
- Request timeouts, retries and asynchrony are not modelled; each handler runs to completion in one step.
- The clock and `uuid4` are parameters.
- The JWT header parser and the signature check of `jose` are abstract parameters of the verifier. Only what runs after them is modelled.
- `JSON.stringify` and `JSON.parse` are taken to be inverse when the page editor stores its content. The page content is a datatype, not text.
- `apps/mobile/assets/ts/locations.ts`, the bundled location list, is not part of this model. The list is a parameter of every screen that reads it.
- `list_pages`, `get_count_pages`, `list_published_pages` and `get_recent_events` (repository.py) are not modelled. They are plain scans whose results depend on DynamoDB's `Limit` and pagination, which the model does not represent.
- `_convert_decimals` and `_convert_floats` in repository.py are not modelled; values are kept as they are stored.
- Python's `int` on a path id is the parameter `parseId` of Repository.PageRepository.GetPage, UpdatePage, PublishPage and DeletePage; its `None` is the `ValueError` that no handler catches, modelled as the 500 "Internal Server Error".
- PageSearch.HandleSearch: the search route takes only `q` and `limit`, so the city, type and published filters the client sends are ignored by the server; the model lets the filters decide only which branch runs.
- A KeyError on a missing `geometry`, `distance` or `duration` field of a found OSRM route is not modelled. Routing.Route reads these fields as present; only a position that does not unpack into two numbers is modelled as the 500 it causes.
- An OSRM answer with status 200 whose body is not JSON, or is JSON but not an object, is not modelled. `osrm_res.json()` or `data.get` then raises and the handler fails with a 500 (apps/backend/routingSpecificApi/fastapi/main.py:69-71); Routing.Route takes the body as an object.
- Json.Lookup: a `JObj` may repeat a member name, and Lookup takes the first such member, whereas `JSON.parse` keeps the last. The model does not represent duplicate names in parsed text.
- FetchNearbyPages.FetchNearbyPagesForGisId: the result is a Dafny `map`, so the insertion order of the returned `Record` (the order in which pages were found) is not kept; the ids looked up are kept in order.
- The results screen, image choice, navigation and every rendered view are not modelled, beyond the conditions that decide whether a section shows. For example, TagResults cards are always rendered with `isSaved` false, and that is not stated.
- MapScreen.ToggleTwicePresent: toggling a present name twice restores the set of active filters but moves that name to the end of the list. Only for an absent name is the list itself restored (MapScreen.ToggleTwiceAbsent).
- SavedStore.ToggleTwice: a stored list with duplicates is restored as a set, not as the list itself.
- Route answers to the planner's requests arrive asynchronously and are not modelled. RoutePlanner records the request it would send.

## Findings

| source | as written | input that shows it | evidently intended | confidence | as-written member | corrected member |
|---|---|---|---|---|---|---|
| apps/web/AdminWebpage/src/pages/Trails.tsx:527-534 | `summarizeProps` calls `Object.keys(feat.properties)` whenever `typeof feat.properties === "object"`, which is also true of `null` | a feature `{"type": "Feature", "properties": null}`, which GeoJSON allows: `Object.keys(null)` throws and the comparison fails | a feature with `properties: null` contributes no keys, as `featureId` (`feat?.properties ?? {}`) already treats it | not executed | Trails.FeatureKeysAsWritten, Trails.NullPropertiesThrow | Trails.FeatureKeys |
| apps/web/AdminWebpage/src/pages/AppPageSearch.tsx:94 | the delete button passes `` `Bearer ${token}` ``, and `ApiService.delete` (ApiService.ts:150) adds `Bearer ` again | token `t`: the header sent is `Bearer Bearer t`; with no token it is `Bearer Bearer null` | pass the bare token, as every other page-service call does, giving `Bearer t` | not executed | PageSearch.DeleteAuthorizationAsWritten, PageSearch.DoubleBearer, PageSearch.DoubleBearerExample | PageSearch.DeleteAuthorization, PageSearch.DeleteHeader |
| apps/web/AdminWebpage/src/services/ApiService.ts:145-152 | `ApiService.delete` always calls `res.json()`, and the delete button removes the row when that value is truthy | a successful delete answers 204 with no body (apps/backend/api/app/routes/pages.py:108-121), so `res.json()` rejects, the handler throws and the deleted page stays listed; a refused one (401 or 404) answers `{"detail": ...}`, which is truthy, so the page leaves the list although it still exists | the row goes exactly when the status is a success | not executed | PageSearch.AfterDeleteReplyAsWritten, PageSearch.DeleteReplyInverted | PageSearch.AfterDeleteReply, PageSearch.DeleteReplyCorrected |
| apps/web/AdminWebpage/src/pages/AppPageSearch.tsx:36-37 | `setPages(results.pages)`, where `results` is the parsed reply of `GET /pages/search` | any search that does not reload, e.g. query "trail": the route answers a bare list of pages (apps/backend/api/app/routes/pages.py:49-61), which has no `pages` property, so the table shows no rows; a blank query with a filter set gets a 422 `{"detail": ...}`, equally without `pages` | `setPages(results)` for a list reply | not executed | PageSearch.SearchRowsAsWritten, PageSearch.SearchShowsNothing | PageSearch.SearchRows, PageSearch.SearchRowsCorrected |
