# KNOW-YOUR-CITY in Dafny

KNOW-YOUR-CITY is a city guide. Its Express and Mongoose back end stores
cities, places, users and reviews. Users submit places, which an
administrator approves. Users review places, and each review updates the
place's cached rating. Users sign in locally or through Google and Facebook.
A React front end offers a home-page slideshow and moderation tables for the
administrators.

This project models the parts of that system that make decisions:

- the four schemas, with their defaults, validators and unique indexes;
- the place routes: lookup lists, the public listing with its filters,
  sorting and pagination, place submission, and review submission with its
  rating recompute;
- the city routes: state and country lists, the city listing, a city's
  places and the statistics route;
- the administration routes: the dashboard counts, status and role changes,
  and city creation, update and deletion;
- the OAuth account resolution and the session serialization;
- the slideshow's state machine;
- the moderation tables' filters and actions.

The database is a `Database.Store` object. It holds one sequence per
collection, in insertion order, and the counter that hands out ids.
`Store.Valid()` states what the schemas guarantee of every stored document:

- ids are unique;
- places and reviews pass their validators;
- no user has two reviews of the same place;
- users are valid and distinct on email, googleId and facebookId.

Every handler that writes to the store is a method with `modifies db`. Each
one states the complete new state in every outcome (success, 400, 404, 500,
refused) and keeps `Valid()`.

Read-only handlers are functions. Where the source assembles its query
object one field at a time, a method does the same and is proved equal to
the function. The listing semantics are proved about the functions as
lemmas.

Three things are parameters rather than models:

- regular-expression matching (`matches(pattern, value)`);
- the store's order on embedded rating documents (`ratingLe`);
- the ObjectId cast of a query string (`parseId`).

Files: `common.dfy`, `text.dfy` (JavaScript `trim`, `toLowerCase`,
`includes`, and code-point string order), `seqs.dfy` (find, filter,
distinct, sort, window), `city.dfy`, `place.dfy`, `review.dfy`, `user.dfy`,
`rating.dfy`, `database.dfy`, `paging.dfy`, `places_routes.dfy`,
`cities_routes.dfy`, `admin_routes.dfy`, `passport.dfy`, `carousel.dfy`,
`admin_pages.dfy`.

## Model

| member | source | states |
|---|---|---|
| CityModel.NewDefaults | server/models/City.js:44-51 | A new city is active and not featured unless the body says otherwise. Supplied values, foundedYear included, are kept. |
| CityModel.NewValidIff | server/models/City.js:3-39 | A new city saves exactly when name, state and country are non-blank after trimming, description is non-empty, and both coordinates and population are present. foundedYear plays no part. |
| CityModel.Update | server/routes/admin.js:61-72 | An update keeps the id and creation time. Each supplied field overwrites the stored one, with name, state and country trimmed, and each absent field leaves it alone. An empty body changes nothing. |
| CityModel.ByNameTotalPreorder | server/routes/cities.js:51 | The sort on name is a total preorder. |
| PlaceModel.NewDefaults | server/models/Place.js:60-79 | A new place is pending, not featured, and rated {0, 0} unless the body says otherwise. |
| PlaceModel.NewValidIff | server/models/Place.js:3-79 | A new place saves exactly when its required fields are present and any supplied rating average lies in [0, 5]. |
| ReviewModel.NewDefaults | server/models/Review.js:34-41 | A new review is active and unverified unless the body says otherwise. |
| ReviewModel.AppendKeepsOnePerUserPlace | server/models/Review.js:46-47 | Inserting a review keeps the unique (user, place) index satisfied exactly when its author has no review of that place yet. |
| UserModel.InsertKeepsUniqueKeys | server/models/User.js:10-33 | A user that can be inserted keeps email, googleId and facebookId unique. |
| UserModel.ReplaceKeepsUniqueKeys | server/models/User.js:10-33 | A change that can be saved keeps email, googleId and facebookId unique. |
| UserModel.PasswordRule | server/models/User.js:17-23 | A user needs a password exactly when it has neither a Google nor a Facebook id. A password that is present has at least 6 characters. |
| UserModel.NewDefaults | server/models/User.js:34-50 | A new user defaults to the local provider, the "user" role, unverified, with an empty avatar. The stored email is lower-cased and trimmed. |
| UserModel.NormalizeEmailIdempotent | server/models/User.js:10-16 | Normalizing an email twice gives the same result as normalizing it once. |
| UserModel.PreSave | server/models/User.js:64-74 | The password is replaced by its hash exactly when it was modified and is non-empty. Nothing else changes. |
| Text.TrimIsCore | server/models/City.js:4-8 | A trimmed string neither starts nor ends with whitespace. It occurs in the original, and everything before and after it there is whitespace. |
| Text.TrimIdempotent | server/models/Review.js:20-24 | Trimming twice gives the same result as trimming once. |
| Text.ContainsIff | client/src/pages/admin/AdminCities.js:37-41 | `includes` holds exactly when the term occurs at some position. |
| Text.LexLeTotal | server/routes/cities.js:8-16 | The string sort order is total. |
| Text.LexLeTransitive | server/routes/cities.js:8-16 | The string sort order is transitive. |
| Text.LexLeAntisymmetric | server/routes/cities.js:8-16 | The string sort order is antisymmetric. |
| Seqs.FindIndex | server/config/passport.js:15 | `findOne` returns the first match, or nothing when no element matches. |
| Seqs.FilterIsSubsequence | client/src/pages/admin/AdminPlaces.js:35-40 | A filter keeps an order-preserving sub-list of its input. |
| Seqs.FilterLength | server/routes/places.js:74 | The number of selected elements is the number of matching positions. |
| Seqs.SortBy | server/routes/places.js:70 | Sorting gives a permutation of its input. |
| Seqs.SortBySorted | server/routes/places.js:70 | Sorting by a total preorder gives an ordered sequence. |
| Seqs.SortedDistinctSpec | server/routes/cities.js:8-16 | `distinct` followed by `sort` lists every value exactly once, in strictly ascending order. |
| Seqs.Window | server/routes/places.js:71-72 | `limit` then `skip` keeps the elements from `skip` onwards, at most `limit` of them. |
| RatingAggregate.SumRatingsBounds | server/routes/places.js:220 | The sum of ratings in 1..5 lies between the count and five times the count. |
| RatingAggregate.RoundedTenths | server/routes/places.js:223 | `Math.round(10 * mean)` is the whole number t with (2t-1)·count <= 20·sum < (2t+1)·count. |
| RatingAggregate.RoundedTenthsUnique | server/routes/places.js:223 | That rounding window admits exactly one whole number. |
| RatingAggregate.RoundedTenthsBounds | server/routes/places.js:223 | The mean of ratings in 1..5 rounds to between 10 and 50 tenths. |
| RatingAggregate.Recompute | server/routes/places.js:219-225 | The recompute fails exactly when the place has no active review. Otherwise the count is the number of active reviews. |
| RatingAggregate.RecomputeMeaning | server/routes/places.js:219-225 | The count is the number of positions holding an active review of the place. Ten times the average is the mean of those ratings, in tenths, rounded with a half rounding up. |
| RatingAggregate.RecomputeBounds | server/routes/places.js:219-225 | With ratings in 1..5, the recomputed average lies in [1, 5], so it always passes the schema's [0, 5] bound. |
| RatingAggregate.RecomputeAfterAppend | server/routes/places.js:219-225 | A new active review of the place adds one to the count and its rating to the sum. Any other review leaves the recompute unchanged. |
| Database.Find | server/routes/places.js:193-197 | `findById` returns the first record with the id, or reports that none has it. |
| Database.FindUnique | server/routes/places.js:193-197 | With unique ids, the record found is the one that carries the id. |
| Database.UpdateTwice | server/routes/admin.js:101-119 | Applying an idempotent, id-preserving update twice gives the same result as applying it once. |
| Database.AppendKeepsKeys | server/routes/places.js:164-165 | A record saved under the next id keeps ids unique. |
| Database.RemoveKeepsKeys | server/routes/admin.js:74-85 | Deleting a record keeps ids unique. |
| Paging.PageSize | server/routes/places.js:71 | `.limit(n)`: no limit for 0, otherwise at most abs(n) documents. |
| Paging.PageCount | server/routes/places.js:80 | `Math.ceil(total / limit)`: null for limit 0. Otherwise the page count is the ceiling, with the inequalities flipped for a negative limit. |
| Paging.PageCountLeast | server/routes/places.js:80 | With a positive limit, the page count is the least number of pages that holds every match. |
| Paging.Paginate | server/routes/places.js:66-83 | A negative skip fails with 500. Otherwise the page is the sorted items from `(page-1)*limit` onwards. It holds exactly abs(limit) of them, or all that remain when fewer remain or the limit is 0 (`.limit(0)` means no limit), and none past the end. It reports current, pages and total. |
| Paging.PaginateCovers | server/routes/places.js:66-72 | With a positive limit, every match appears on page index/limit + 1 at offset index mod limit. |
| Paging.PageSorted | server/routes/places.js:70-72 | A page of a sorted listing is itself sorted. |
| PlaceRoutes.CategoryValues | server/routes/places.js:12 | The categories collected are exactly those present on the places. |
| PlaceRoutes.CategoriesSpec | server/routes/places.js:10-18 | Each category of an active place is listed exactly once, and nothing else is listed. |
| PlaceRoutes.CitiesForFilter | server/routes/places.js:21-32 | The list is a permutation of the active cities, each stored record once, in ascending order of name. |
| PlaceRoutes.BuildPlaceQuery | server/routes/places.js:48-64 | The query object built field by field is the filter FilterOf describes. A city that is not an ObjectId fails with 500. |
| PlaceRoutes.FilterOfMeaning | server/routes/places.js:48-64 | A place is listed exactly when it is active and passes every truthy parameter's condition, all of them together. `featured` filters only when it is exactly "true". |
| PlaceRoutes.FeaturedOnlyWhenTrue | server/routes/places.js:52 | A `featured` value other than "true" selects the same places as no value. |
| PlaceRoutes.RankedBeforeTotalPreorder | server/routes/places.js:70 | Ordering by rating descending, then by creation time newest first, is a total preorder. |
| PlaceRoutes.ListPlaces | server/routes/places.js:35-88 | The listing handler computes Listing: build, find, sort, page, with limit 20 and page 1 as defaults. |
| PlaceRoutes.ListingSpec | server/routes/places.js:35-88 | Listed places are stored, active and pass the filter. `total` counts every matching place. The page is in rank order. |
| PlaceRoutes.GetPlace | server/routes/places.js:91-106 | The result is found exactly when some place has the id, whatever its status. Otherwise the result is 404. |
| PlaceRoutes.PlaceReviews | server/routes/places.js:109-134 | The route fails with 500 exactly on a negative skip. Otherwise the page is the window at `(page - 1) * limit` of the place's active reviews sorted newest first, with exactly as many items as `Paging.PageLength` gives (at most 10 by default). The pagination object carries the page, the page count and a total of all active reviews of the place. |
| PlaceRoutes.SubmissionIsPending | server/routes/places.js:158-162 | A submitted place is pending and owned by the caller, whatever the body says. Every other supplied field is kept. |
| PlaceRoutes.SubmissionSaves | server/routes/places.js:137-172 | A body that passes the validators saves exactly when it has a non-empty category and any supplied average lies in [0, 5]. |
| PlaceRoutes.CreatePlace | server/routes/places.js:137-179 | A failed validator gives 400, and the store is unchanged. A failed save gives 500, and the store is unchanged. Otherwise the pending place is appended under the next id. |
| PlaceRoutes.ReviewOfSpec | server/routes/places.js:209-213 | The stored review belongs to the caller and the place in the path, whatever the body supplies. It keeps the body's status, its verified flag and its whole-number rating, and it passes the schema. |
| PlaceRoutes.InsertReview | server/routes/places.js:215-216 | Saving a validated review that is not a duplicate keeps the store consistent. |
| PlaceRoutes.StoreRating | server/routes/places.js:222-225 | Writing a rating in [0, 5] into one place changes only that place's rating. |
| PlaceRoutes.AddReview | server/routes/places.js:182-238 | An invalid body gives 400, an unknown place gives 404, and an existing review by the caller gives 400, each with the store unchanged. Otherwise the review is stored. With no active review the request then fails with 500 and the rating is untouched. Otherwise the place's count equals its number of active reviews. |
| CityRoutes.ActiveValues | server/routes/cities.js:10 | The values collected are exactly the field values of the active cities. |
| CityRoutes.States | server/routes/cities.js:8-16 | Exactly the states of active cities are listed, once each, in ascending order. |
| CityRoutes.Countries | server/routes/cities.js:19-27 | Exactly the countries of active cities are listed, once each, in ascending order. |
| CityRoutes.BuildCityQuery | server/routes/cities.js:33-49 | The query object built field by field is the filter CityFilterOf describes. |
| CityRoutes.CityFilterMeaning | server/routes/cities.js:33-49 | A city is listed exactly when it is active, featured if `featured` is "true", and matches each non-empty search, state and country. |
| CityRoutes.ListCities | server/routes/cities.js:30-57 | The listing handler computes CityListing. |
| CityRoutes.CityListingSpec | server/routes/cities.js:30-57 | The listing is a permutation of the matching cities. It holds only active cities, in ascending order of name. |
| CityRoutes.GetCity | server/routes/cities.js:60-71 | The result is found exactly when some city has the id. Otherwise the result is 404. |
| CityRoutes.BuildCityPlacesQuery | server/routes/cities.js:77-85 | The query object is the city, plus category and featured when they are given. |
| CityRoutes.CityPlaces | server/routes/cities.js:74-109 | The handler computes CityPlacesListing. |
| CityRoutes.CityPlacesSpec | server/routes/cities.js:74-109 | Only active places of the city are listed, filtered by category and featured, in rank order. `total` counts every such place. |
| CityRoutes.CityStatsAsWritten | server/routes/cities.js:112-134 | As written, the statistics route always ends in 500. |
| CityRoutes.CityStats | server/routes/cities.js:116-117 | Corrected: totalPlaces is the number of active places of the city. totalReviews is the number of reviews of any of the city's places. |
| CityRoutes.CityStatsAlwaysFails | server/routes/cities.js:112-134 | Every request fails as written, although the intended computation always succeeds. |
| AdminRoutes.Dashboard | server/routes/admin.js:14-37 | Non-admins are refused. Otherwise the result holds the four collection sizes, the number of pending places and the number of reported reviews. |
| AdminRoutes.PlaceStatusOnly | server/routes/admin.js:101-119 | With unique ids, a status change alters only the status of the place with that id. An absent status changes nothing. |
| AdminRoutes.ReviewStatusOnly | server/routes/admin.js:166-184 | With unique ids, a status change alters only the status of the review with that id. |
| AdminRoutes.PlaceStatusIdempotent | server/routes/admin.js:101-119 | Setting the same place status twice gives the same result as setting it once. |
| AdminRoutes.ReviewStatusIdempotent | server/routes/admin.js:166-184 | Setting the same review status twice gives the same result as setting it once. |
| AdminRoutes.DeactivatingReviewDrifts | server/routes/admin.js:166-184 | Deactivating an active review lowers its place's active count by one. A place whose cached rating count matched before the change, and which the route leaves alone, no longer matches after it. |
| AdminRoutes.ReviewStatusKeepsInvariants | server/routes/admin.js:169-173 | A review status change keeps ids unique, reviews valid and the (user, place) index satisfied. |
| AdminRoutes.PlaceStatusKeepsInvariants | server/routes/admin.js:104-108 | A place status change keeps ids unique and places valid. |
| AdminRoutes.SetPlaceStatus | server/routes/admin.js:101-119 | Non-admins are refused and an unknown id gives 404, both with the store unchanged. Otherwise the status is written and the updated place is returned. |
| AdminRoutes.SetReviewStatus | server/routes/admin.js:166-184 | Refusal and 404 work as for places. Otherwise only the review changes, and the places, ratings included, are left untouched. |
| AdminRoutes.SetUserRole | server/routes/admin.js:132-150 | Refusal and 404 work as for places. Otherwise the role is written and the user is returned without its password. |
| AdminRoutes.CreateCity | server/routes/admin.js:50-59 | Non-admins are refused. An invalid city gives 500. Otherwise the new city is appended under the next id. |
| AdminRoutes.UpdateCity | server/routes/admin.js:61-72 | Non-admins are refused and an unknown id gives 404. Otherwise the body is applied without validation and the new city is returned. |
| AdminRoutes.DeleteCity | server/routes/admin.js:74-85 | Non-admins are refused and an unknown id gives 404. Otherwise the city is removed, no city with that id remains, and the places that name it are untouched. |
| Passport.Link | server/config/passport.js:26-27 | Linking sets the provider id and the avatar. Every other field is kept. |
| Passport.Resolve | server/config/passport.js:12-46 | Failures give a server error and store nothing. A signed-in user carries the profile's provider id and is in the collection. Only a creation adds a user. |
| Passport.ResolveById | server/config/passport.js:15-19 | A user with the provider id is returned unchanged, and this lookup wins over the email lookup. |
| Passport.ResolveLinks | server/config/passport.js:22-30 | Otherwise the user with the profile's normalized email is linked, and in a consistent store that save always succeeds. |
| Passport.ResolveCreates | server/config/passport.js:33-43 | Otherwise a verified user is created with the provider, the next id, and the profile's name, email and photo. It is saved when the schema allows. |
| Passport.FacebookWithoutEmailFails | server/config/passport.js:82-94 | A new Facebook user without an email gets email null, which the required validator refuses. |
| Passport.ResolveKeepsInvariant | server/config/passport.js:12-96 | Every outcome keeps ids unique, users valid and the unique indexes satisfied. |
| Passport.ResolveStable | server/config/passport.js:15-19 | Signing in again with the same profile returns the same user and changes nothing. |
| Passport.Verify | server/config/passport.js:59-96 | The callback run against the store produces exactly Resolve's outcome and keeps the store consistent. |
| Passport.Deserialize | server/config/passport.js:107-114 | The user returned carries the id and is stored. Nothing is returned when no user has the id. |
| Passport.SessionRoundTrip | server/config/passport.js:102-114 | Deserializing a stored user's serialized id gives that user back. |
| SlideShow.Next | client/src/components/Carousel.js:61-63 | The next index stays in range, and the last slide wraps to the first. |
| SlideShow.Prev | client/src/components/Carousel.js:65-67 | The previous index stays in range, and the first slide wraps to the last. |
| SlideShow.StepsInverse | client/src/components/Carousel.js:61-67 | Next then Prev, and Prev then Next, return to the starting slide. |
| SlideShow.StepsWrap | client/src/components/Carousel.js:52-59 | k auto-advance steps move k slides on, wrapping once. After n steps the show is back at its start. |
| SlideShow.Carousel.constructor | client/src/components/Carousel.js:6-7 | The carousel starts on the first slide, playing. |
| SlideShow.Carousel.NextSlide | client/src/components/Carousel.js:61-63 | The current slide advances by Next and stays in range. |
| SlideShow.Carousel.PrevSlide | client/src/components/Carousel.js:65-67 | The current slide moves back by Prev and stays in range. |
| SlideShow.Carousel.GoToSlide | client/src/components/Carousel.js:69-71 | The current slide becomes exactly the dot's index. |
| SlideShow.Carousel.TogglePlayPause | client/src/components/Carousel.js:73-75 | Toggling flips isPlaying, so toggling twice restores it. |
| SlideShow.Carousel.Tick | client/src/components/Carousel.js:52-59 | The interval advances the slide only while playing. |
| AdminPages.FilteredPlaces | client/src/pages/admin/AdminPlaces.js:35-40 | The table holds exactly the fetched places whose name or city name contains the term and whose status passes the filter. With no data it is empty. |
| AdminPages.FilteredReviews | client/src/pages/admin/AdminReviews.js:35-40 | The table holds exactly the fetched reviews whose place name or author name contains the term and whose status passes the filter. With no data it is empty. |
| AdminPages.FilteredCities | client/src/pages/admin/AdminCities.js:37-41 | The table holds exactly the fetched cities whose name, state or country contains the term. With no data it is empty. |
| AdminPages.FilteredAreSublists | client/src/pages/admin/AdminPlaces.js:35-40 | Each table shows an order-preserving sub-list of the fetched rows. |
| AdminPages.EmptyFiltersKeepAll | client/src/pages/admin/AdminCities.js:37-41 | An empty term and an empty status filter show every place and every city. |
| AdminPages.StatusFilterExact | client/src/pages/admin/AdminReviews.js:38 | A non-empty status filter shows only rows with exactly that status. |
| AdminPages.StatusActions | client/src/pages/admin/AdminPlaces.js:145-162 | The two status buttons, which set `active` or `inactive`, are offered exactly while the row has the one status they are shown for. |
| AdminPages.ActionsSettle | client/src/pages/admin/AdminReviews.js:155-172 | Approve and Reject are offered exactly on pending places, and Approve and Remove exactly on reported reviews. After any offered action the row offers no action any more. |
| AdminPages.DeleteRequest | client/src/pages/admin/AdminCities.js:18-27 | A delete is sent exactly when the confirmation is accepted, and it carries that city's id. |

## Left out

- Collections are sequences in insertion order, not keyed maps. The order is what `find`, `findOne`, `distinct` and `sort` see, and lookup by id is a search.
- Concurrency is not modelled. The duplicate-review check and the rating recompute each read and then write, and a concurrent request could interleave between the two. Handlers run one at a time.
- `Math.round(avg*10)/10` is computed in exact tenths. Floating-point effects at exact half-tenths are not modelled.
- Coordinates and the `parseFloat` of minRating are `real`. Query parameters that are not numbers (`limit`, `page` and `minRating` giving NaN) are not modelled: `limit` and `page` are integers, and minRating is a real or absent.
- Regular-expression matching is a parameter. The pattern language is not modelled.
- `toLowerCase` lowers ASCII letters only. Full Unicode case mapping is not modelled.
- String order compares characters by code point. Orderings that differ from UTF-16 code-unit order for characters outside the Basic Multilingual Plane are not modelled.
- The store's ordering of embedded rating documents is the parameter `ratingLe`.
- The `auth` and `adminAuth` middleware are not part of this model. The caller is an input, and an admin is a caller whose role is "admin". A refusal is the failure `Denied`, and its HTTP status is not modelled.
- Password hashing is an opaque function. Password comparison and the local login routes are not part of this model.
- Ids in a URL path are ids. A path id that is not an ObjectId (a cast error, 500) is not modelled.
- `populate` and field projections (`select`) are not modelled. Responses carry the stored records, and the admin tables receive the populated names as inputs.
- Timestamps are a `now` parameter. A `createdAt` or `updatedAt` supplied in a body is not modelled.
- The admin listing routes (`GET /admin/cities`, `/admin/places`, `/admin/users`, `/admin/reviews`) are not modelled. They are unfiltered `find` calls sorted newest first.
- The `categoryStats` aggregate of the statistics route is not modelled. It compares a city id that was never cast against stored ObjectIds.
- PlaceRoutes.CreatePlace: the body's `city` is taken as an id and its coordinates as numbers. The two 400s for a city that is not an ObjectId (`isMongoId`) and for a non-numeric latitude or longitude (`isNumeric`) are not modelled. Only a missing city or coordinate fails those validators here.
- PlaceRoutes.ValidReviewBody: the rating is taken as a number. `isInt` also accepts a numeric string such as "3", and that form is not modelled.
- Fields that no route reads are not modelled: contact info, timings, price range, images, favorites and the user's review list.
- The OAuth handshake and the strategy registration are not part of this model. Nor is the choice, made from the environment, of whether a provider is enabled.
- Passport.Resolve: an absent `emails` or `photos` list is modelled as an empty one. Both end in the same error.
- Passport.ResolveLinks: it assumes a non-empty provider id. An empty id could make a linked user without a password need one.
- The carousel's rendering, its video fallback and its progress bar are not modelled.
- The admin pages' fetching and status-change requests (network calls) are not modelled. Nor is a row whose populated name is missing when its reference is present.

## Findings

| source | as written | input that shows it | evidently intended | confidence | as-written member | corrected member |
|---|---|---|---|---|---|---|
| server/routes/cities.js:117 | `Review.countDocuments(...)` is called, but the file imports only `City` and `Place` (lines 1-3). The call throws a ReferenceError, and the catch block answers 500. | any `GET /api/cities/:id/stats` | the number of active places of the city, and the number of reviews of the city's places | high (not executed) | CityRoutes.CityStatsAsWritten, CityRoutes.CityStatsAlwaysFails | CityRoutes.CityStats |

Two behaviours of the code that the model keeps as they are:

- A review with no active review of its place ends in 500 after the review is stored. The recompute divides by zero, and the cast of the NaN average fails.
- The admin status and role updates run no validator. Any status string is stored, and the place's cached rating is not recomputed.
