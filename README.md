# SportsBuddy matching and controller core, modelled in Dafny

This project models the server-side core of SportsBuddy, a service that pairs
cricket players. At its centre is the partner-matching engine:

- a 17-entry feature vector per profile;
- cosine and Euclidean similarity;
- complementary-role, skill-balance, availability and preference-fit scorers;
- a hard preference filter;
- `findBestMatches`, which filters, scores, rounds to a percentage and sorts
  in descending order.

The engine is fed by the interaction-affinity logic: find-or-increment
interaction records, a weight per interaction type, a 70% discount for
interactions the requester received, and per-partner sums.

Around the engine sit the controllers' table updates. Each MongoDB collection
becomes an in-memory map or sequence held in a class:

- match capacity (`joinMatch`, `createMatch`);
- the friend-request lifecycle, with symmetric friend lists, plus messages
  and conversations;
- clubs and posts, with membership checks, like toggles and comments;
- training videos, with a view counter, like toggles, comments and delete
  authorisation;
- the e-mail verification table of the auth routes;
- the `.env` loader and the exported defaults.

Finally, the training-video model carries the url validator and the pre-save
url normaliser. The normaliser includes YouTube id extraction following the
regular expression's own semantics.

Modules (one file each): `Common` (JavaScript string and array helpers),
`Sorting` (the stable descending sort of `Array.prototype.sort`),
`CricketProfiles`, `VectorSimilarity`, `Matching`, `Interactions`,
`CricketMatches`, `PartnerSearch`, `Social`, `Community`, `TrainingVideos`,
`Auth`, `Config`.

Modelling choices:

- Scores are Dafny `real`. `Math.sqrt` is a parameter `sqrt` constrained by
  `IsSqrt` (it returns the non-negative square root of a non-negative number).
- `Math.round` is `JsRound` (round half up).
- The clock (`now`), `Math.random()` (`r`), random tokens and the outcomes of
  database writes and mail delivery (`saved`, `mailSent`) are parameters.
- The `new URL(...)` parser is a parameter `protocol`, which returns the
  protocol or `None` when parsing throws. `Number(...)` (`toNumber`) and
  `new Date(...)` (`toDate`) are parameters too, with `None` standing for
  NaN and for an Invalid Date.
- The geospatial `$near` lookup is a parameter `near`. Given a centre and a
  radius, it returns the profiles within the radius, or `None` when the
  database rejects the query. A search pattern is compiled by a parameter
  `compile` (`None` when the pattern is invalid). Whether `JWT_SECRET` is
  set in the environment is the parameter `secretSet`.
- Mongoose applies `trim: true` before validation. `Common.Trim` models
  `String.prototype.trim`.
- Ids are strings or naturals. The identity of a MongoDB `ObjectId` is its
  string form. `Common.IsObjectId` is the ODM's cast check, used where a
  user id from a request body reaches a query.
- Mongoose runs schema validation before the `pre('save')` hooks. The url
  normaliser is therefore modelled as applying to a url the validator has
  already accepted.

## Model

| member | source | states |
|---|---|---|
| VectorSimilarity.CosineSimilarity | server/utils/collaborativeFiltering.js:8-26 | fails exactly when the lengths differ; the loop's sums equal the dot product and the squared norms, so the result equals the specification `Cosine` (0 when a norm is 0) and lies in [-1,1] |
| VectorSimilarity.CosineBounded | server/utils/collaborativeFiltering.js:8-26 | cosine lies in [-1,1], and in [0,1] when both vectors are non-negative (via Cauchy-Schwarz) |
| VectorSimilarity.CauchySchwarz | server/utils/collaborativeFiltering.js:8-26 | (a·b)² ≤ ‖a‖²‖b‖², the fact behind the bound on the cosine |
| VectorSimilarity.CosineSymmetric | server/utils/collaborativeFiltering.js:8-26 | cosineSimilarity(a,b) = cosineSimilarity(b,a), including the error case |
| VectorSimilarity.CosineSelf | server/utils/collaborativeFiltering.js:8-26 | a vector with non-zero norm has similarity exactly 1 with itself |
| VectorSimilarity.EuclideanSimilarity | server/utils/collaborativeFiltering.js:29-40 | fails exactly on unequal lengths; otherwise returns 1/(1+√Σ(aᵢ−bᵢ)²), which lies in (0,1] |
| VectorSimilarity.EuclideanFacts | server/utils/collaborativeFiltering.js:29-40 | the similarity lies in (0,1], is symmetric, and equals 1 for identical vectors |
| Matching.FeatureVector | server/utils/collaborativeFiltering.js:43-64 | the vector always has 17 entries |
| Matching.FeatureVectorRange | server/utils/collaborativeFiltering.js:43-64 | the one-hot entries are 0 or 1; for skills in 1..10 the three scaled skills lie in [0.1,1] |
| Matching.FeatureVectorGroups | server/utils/collaborativeFiltering.js:48-63 | each one-hot group (position, batting style, bowling style, time) sums to 1 when the value is in its enumeration and to 0 otherwise, so at most one entry is set |
| Matching.SelfSimilarity | server/utils/collaborativeFiltering.js:8-64 | a valid profile's feature vector has cosine similarity 1 with itself |
| Matching.SimilarityBounded | server/utils/collaborativeFiltering.js:8-64 | the similarity of two valid profiles' vectors lies in [0,1] |
| Matching.Complementary | server/utils/collaborativeFiltering.js:67-98 | the score is (position part + style part)/2 and lies in [0.55,1] |
| Matching.ComplementaryParts | server/utils/collaborativeFiltering.js:67-98 | the position part is 1, 0.7 or 0.5 and the style part is 1 or 0.6; identical positions give 0.5; the style part is symmetric; Batsman→All-rounder scores 1 but All-rounder→Batsman scores 0.7 |
| Matching.SkillBalanceFacts | server/utils/collaborativeFiltering.js:101-109 | the score is symmetric, equals 1 exactly when the skill averages are equal, and lies in [0.1,1] for valid profiles |
| Matching.AvailabilityFacts | server/utils/collaborativeFiltering.js:112-123 | the score is one of 0, 0.25, 0.5, 0.75, 1 and is symmetric |
| Matching.MeetsIgnores | server/utils/collaborativeFiltering.js:126-181 | the filter never reads the candidate's fielding skill, location or own preferences |
| Matching.MeetsAnyWildcards | server/utils/collaborativeFiltering.js:143-178 | an 'Any' entry in a preference list disables that list's check: the candidate's batting style, bowling style, position and time do not matter |
| Matching.MeetsInvertedRange | server/utils/collaborativeFiltering.js:132-141 | a preference range with min > max rejects every candidate, since nothing enforces min ≤ max |
| Matching.MeetsDefaultPreferences | server/utils/collaborativeFiltering.js:162-172 | under the default preferences a valid candidate passes exactly when it is available on both weekdays and weekends, so a candidate with the default availability never passes |
| Matching.SkillFactorFacts | server/utils/collaborativeFiltering.js:192-206 | a skill inside [min,max] contributes at least 0.5; the midpoint contributes 1; a zero-width range divides by 10 |
| Matching.PreferenceScoreOfSurvivor | server/utils/collaborativeFiltering.js:184-258 | without preferences the score is 1; for a candidate that passed the filter, the mean of the six factors lies in [5/6,1] |
| Matching.ScoredProfiles | server/utils/collaborativeFiltering.js:267-329 | the scored list keeps, in order, exactly the input profiles other than the requester that pass the filter, one entry each |
| Matching.ScoreOfBounded | server/utils/collaborativeFiltering.js:275-319 | for valid profiles and non-negative interaction scores, each sub-score lies in its proven range and the rounded percentage lies in [0,100] |
| Matching.RoundPercent | server/utils/collaborativeFiltering.js:318 | rounding a percentage in [0,100] gives an integer in [0,100] |
| Matching.FindBestMatches | server/utils/collaborativeFiltering.js:261-332 | the loop builds the specification ranking: sorted non-increasing by score, no longer than the input, only filter survivors other than the requester, every survivor present, scores in [0,100] for well-formed inputs |
| Matching.MatchesFacts | server/utils/collaborativeFiltering.js:261-332 | the same properties, stated on the specification ranking `BestMatches` |
| Matching.MatchesStable | server/utils/collaborativeFiltering.js:331 | entries with equal scores keep their input order (the sort is stable) |
| Matching.ScoredEntry | server/utils/collaborativeFiltering.js:267-329 | every scored entry is the score of an input profile that was kept |
| Matching.ScoredCovers | server/utils/collaborativeFiltering.js:267-329 | every kept input profile has its score in the scored list |
| Sorting.SortDescMembers | server/utils/collaborativeFiltering.js:331 | an element is in the sorted result exactly when it is in the input |
| Sorting.SortDescCorrect | server/utils/collaborativeFiltering.js:331 | the stable sort returns a permutation of its input that is sorted in descending order |
| Sorting.SortDescStable | server/utils/collaborativeFiltering.js:331 | for each key, the entries carrying that key appear in their original order |
| CricketProfiles.DefaultAvailability | server/models/CricketProfile.js:56-70 | the default availability is valid, with weekdays false and weekends true |
| CricketProfiles.DefaultPreferences | server/models/CricketProfile.js:71-137 | the default preferences are valid: ranges [1,10], 'Any' in every list, both day kinds required, complementarySkills true, maxDistance 20 |
| CricketProfiles.SkillAverage | server/models/CricketProfile.js:9-26 | the average of three skills in [1,10] lies in [1,10] |
| Interactions.FindKey | server/controllers/interactionController.js:24-28 | finds the record with the same (user, target, type) key, or reports that none exists |
| Interactions.RatingOrNull | server/controllers/interactionController.js:36-47 | a truthy rating is stored as given; a missing or zero rating becomes null |
| Interactions.RecordRejects | server/controllers/interactionController.js:14-28 | a missing target or type, or target == caller, gives exactly the 400 reply; a target that is not an ObjectId then fails the `findOne` cast with 500; no failure touches the store |
| Interactions.RecordRepeat | server/controllers/interactionController.js:24-40 | a repeat adds 1 to count, refreshes lastInteractedAt, keeps firstInteractedAt, overwrites rating only for a truthy rating on 'rate_match', and changes no other record; it fails only on a malformed target id (500, store unchanged) or an out-of-range rating |
| Interactions.RecordFirst | server/controllers/interactionController.js:24-55 | a first interaction appends one record with count 1, both timestamps `now` and the rating or null, and succeeds exactly when the target id is an ObjectId and the type and rating pass the schema; a malformed target id gives 500 with the store unchanged |
| Interactions.RecordKeepsStored | server/models/UserInteraction.js:17-48 | recording keeps the store valid: unique (user, target, type) keys, counts ≥ 1, ratings null or in 1..5 |
| Interactions.InteractionStore.Record | server/controllers/interactionController.js:10-56 | the store's new records and the reply are those of `RecordInteraction`, a malformed target id answers 500 with the records unchanged, and the store stays valid |
| Interactions.Weight | server/controllers/interactionController.js:146-170 | 'rate_match' weighs 2·rating, or 5 without a rating; unknown types such as 'view_again' weigh 1; every valid interaction weighs between 1 and 10 |
| Interactions.JsRound | server/controllers/interactionController.js:172-174 | `Math.round` returns the integer within half of its argument, rounding halves up |
| Interactions.ReceivedExact | server/controllers/interactionController.js:172-174 | Math.round(0.7·w) equals (7w+5)/10 |
| Interactions.ReceivedBounds | server/controllers/interactionController.js:172-174 | a received interaction of weight w ≥ 1 weighs between 1 and w |
| Interactions.Involving | server/controllers/interactionController.js:122-127 | the query keeps exactly the records where the user is the initiator or the target |
| Interactions.AffinitySums | server/controllers/interactionController.js:129-177 | the map has an entry for exactly the other parties that occur, and each entry holds the sum of counts and the sum of weight × count |
| Interactions.NoPartnerZero | server/controllers/interactionController.js:129-177 | a party that never occurs contributes nothing to either sum |
| Interactions.AffinityPositive | server/controllers/interactionController.js:129-177 | for valid records every entry has totalInteractions ≥ 1 and interactionScore ≥ totalInteractions |
| Interactions.AccumulateInteraction | server/controllers/interactionController.js:129-177 | one loop step adds the record to its partner's entry, as the specification's step does |
| Interactions.InteractionsForRecommendation | server/controllers/interactionController.js:119-185 | a failed query yields the empty map; otherwise the loop computes the specification affinity map of the user's records |
| Interactions.MatrixLeaves | server/controllers/interactionController.js:86-105 | the nested user → target → type matrix has a leaf exactly for the keys that occur in the records |
| Interactions.MatrixLeafOfRecord | server/controllers/interactionController.js:86-105 | with unique keys, each record's leaf holds that record's count and rating |
| Interactions.RecordLeaf | server/controllers/interactionController.js:88-105 | one loop step creates the missing levels and sets the record's leaf |
| Interactions.InteractionMatrix | server/controllers/interactionController.js:78-112 | the loop builds exactly the specification matrix of all records |
| CricketMatches.NewMatch | server/controllers/cricketMatchController.js:4-27 | the creator is the caller; the date is `new Date` of `${date}T${time}`; title and description are trimmed; participants start empty and status is 'open'. The match is valid exactly when the trimmed title is non-empty, the date parses, and the other required fields, the enumerations and the 1..22 range hold |
| CricketMatches.JoinFacts | server/controllers/cricketMatchController.js:91-111 | a join succeeds exactly when the caller is new and there is room; a rejection changes nothing; a success appends exactly the caller, never exceeds playersNeeded, and sets status to 'full' exactly when the count reaches it |
| CricketMatches.JoinPreserves | server/models/CricketMatch.js:21-54 | a join keeps the match valid, participants without duplicates, and the count within playersNeeded |
| CricketMatches.JoinTwiceRejected | server/controllers/cricketMatchController.js:91-96 | joining the same match twice is rejected the second time |
| CricketMatches.MatchTable.CreateMatch | server/controllers/cricketMatchController.js:4-27 | a valid request stores the new match under a fresh id and answers 201; an invalid one stores nothing and answers 500 |
| CricketMatches.MatchTable.JoinMatch | server/controllers/cricketMatchController.js:78-127 | an unknown id answers 404 and changes nothing; otherwise the table and reply are those of `Join` |
| CricketMatches.JoinCricketMatchAlwaysFails | server/controllers/cricketController.js:291-321 | as written, joinCricketMatch never answers 200. An unknown match gives 404 (there is nothing to populate) and every existing match ends in 500 |
| CricketMatches.JoinCricketMatchOutcome | server/controllers/cricketController.js:291-321 | as intended, an unknown match gives 404 and any other gives 200 |
| CricketMatches.JoinCricketMatchFacts | server/controllers/cricketController.js:301-304 | the intended join adds the caller exactly once, leaves status alone, and repeating it changes nothing |
| CricketMatches.JoinCricketMatchOverfills | server/controllers/cricketController.js:301-304 | unlike joinMatch, this handler admits a new caller into a full match, so the count can exceed playersNeeded |
| CricketMatches.MatchTable.JoinCricketMatch | server/controllers/cricketController.js:291-321 | the intended handler: 404 for an unknown id, otherwise 200 with the caller added to the set of participants |
| PartnerSearch.RadiusFromQuery | server/controllers/cricketController.js:105 | the raw `distance` parameter: absent or empty gives 10000 m; any other string, "0" included, gives `Number(distance)`·1000, or NaN when it does not parse |
| PartnerSearch.RadiusFromBody | server/controllers/cricketController.js:194 | a zero (absent) `maxDistance` gives 10000 m; any other value gives maxDistance·1000 |
| PartnerSearch.RadiusesAgreeExceptZero | server/controllers/cricketController.js:105 | find (line 105) and search (line 194) give the same radius for every non-zero numeric distance; for zero, find asks for 0 m and search for 10000 m |
| PartnerSearch.Expand | server/controllers/cricketController.js:211-216 | a list containing 'Any' becomes the full enumeration; any other list is used verbatim |
| PartnerSearch.PreferencesFrom | server/controllers/cricketController.js:223-240 | the submitted preferences are copied field for field; complementarySkills is true only when submitted as true |
| PartnerSearch.QueryCharacterised | server/controllers/cricketController.js:196-218 | the database query matches a valid profile exactly when the hard filter passes under the submitted preferences, the fielding skill is in range, both day flags are equal and a position is set |
| PartnerSearch.QueryImpliesMeets | server/controllers/cricketController.js:196-218 | every profile the query returns passes the hard filter |
| PartnerSearch.QueryStricterThanMeets | server/controllers/cricketController.js:214-215 | the query is strictly stricter than the filter: a candidate free on weekdays when weekdays were not asked for passes the filter but not the query |
| PartnerSearch.Format | server/controllers/cricketController.js:249-281 | the response keeps the ranking's order, user and score, one view per match |
| PartnerSearch.FindCricketPartners | server/controllers/cricketController.js:93-165 | 404 without a requester profile. Otherwise the database is queried around the stored location with the radius from the raw `distance`. A rejected query gives 500. An empty answer, after excluding the requester, gives 200 with no partners and no count. Otherwise the reply holds the ranked matches and a count equal to their number |
| PartnerSearch.SearchCricketPartners | server/controllers/cricketController.js:170-286 | 404 without a requester profile. Otherwise the query is centred on the stored location when `useProfileLocation` is set, else on the submitted one, with the radius from `maxDistance`. A rejected query gives 500. Otherwise the hits that satisfy the query (requester excluded) are ranked under the submitted preferences, with a count equal to their number |
| PartnerSearch.SearchKeepsQueryResults | server/controllers/cricketController.js:196-246 | every profile of another user within the radius that the query matches appears in the response |
| PartnerSearch.SearchReturnsOnlyQueryResults | server/controllers/cricketController.js:196-246 | conversely, every partner in the response is a profile of another user within the radius that the query matches |
| Social.SendStatus | server/controllers/socialController.js:89-180 | a missing, malformed or self recipient gives 400; the request is created (201) exactly when the recipient exists, is not yet a friend, no request is pending in either direction and the (sender, recipient) pair is unused |
| Social.SendBlocksRepeat | server/controllers/socialController.js:122-139 | once a request is pending, a repeat in either direction is refused with 400 |
| Social.SendAfterRejection | server/models/FriendRequest.js:25 | after a rejection, a new request for the same pair fails at save on the unique index and answers 500 |
| Social.BefriendKeeps | server/controllers/socialController.js:204-217 | accepting adds each user to the other's friends with set semantics, keeps the friend relation symmetric and duplicate-free, and touches no other user |
| Social.RespondKeeps | server/controllers/socialController.js:204-217 | answering a request, by accepting or rejecting it, keeps the store's invariant: a symmetric duplicate-free friend graph, distinct request ids and (sender, recipient) pairs, and requests only between known users |
| Social.UnfriendKeeps | server/controllers/socialController.js:278-295 | removal takes each user out of the other's friends, keeps the relation symmetric, and touches no other user |
| Social.FindPending | server/controllers/socialController.js:188-202 | finds the pending request with this id addressed to the caller, or reports that none exists |
| Social.Between | server/controllers/socialController.js:40-46 | the query keeps exactly the messages between the two users, in either direction |
| Social.ConversationFacts | server/controllers/socialController.js:36-55 | getMessages returns a permutation of the messages between the two users, sorted by createdAt ascending |
| Social.SocialStore.SendMessage | server/controllers/socialController.js:7-34 | 400 for a missing recipient or content; 500 for a recipient id that is not an ObjectId (the lookup throws); 404 for an unknown recipient; otherwise exactly one message is appended |
| Social.SocialStore.SendFriendRequest | server/controllers/socialController.js:89-180 | the reply is `SendStatus`; on 201 exactly one pending request is appended; nothing else changes |
| Social.SocialStore.RespondToFriendRequest | server/controllers/socialController.js:182-229 | an action other than accept or reject gives 400 and no pending request gives 404, both without changes; otherwise the request becomes accepted or rejected and only acceptance befriends |
| Social.SocialStore.RemoveFriend | server/controllers/socialController.js:278-295 | a friend id that is not an ObjectId gives 500 and changes nothing. Otherwise the friend lists become `Unfriend` of the old ones and the store stays symmetric |
| Social.SocialStore.GetConversations | server/controllers/socialController.js:57-86 | the loop collects exactly the known counterparts of the caller's messages |
| Common.ToggleFlips | server/controllers/communityController.js:260-279 | toggling a like flips the caller's membership and keeps the likes duplicate-free |
| Common.ToggleTwice | server/controllers/trainingVideoController.js:144-160 | toggling twice restores the original likes (exactly, when the caller had not liked) |
| Common.AddToSet | server/controllers/socialController.js:211-216 | `$addToSet` adds the element once and keeps every other element |
| Common.Pull | server/controllers/socialController.js:283-288 | `$pull` removes every occurrence of the element and keeps all others |
| Common.ReplaceFirst | server/models/TrainingVideo.js:105 | a string `replace` changes only the first occurrence, or nothing when there is none |
| Common.TrimFacts | server/models/Post.js:4-8 | `trim` leaves no white space at either end; the result is empty exactly when the text is all white space; a text without white space at its ends is unchanged; trimming is idempotent |
| Community.Reported | server/controllers/communityController.js:11-37 | as intended, a handler answers its success status when every guard passes, and otherwise the status the failing guard set |
| Community.Required | server/controllers/communityController.js:214-217 | a required field passes exactly when it is present; otherwise its guard sets 400 with its own message |
| Community.CreateClubCheck | server/controllers/communityController.js:11-15 | the guard passes exactly when name, description, sport and location are all present |
| Community.JoinClubCheck | server/controllers/communityController.js:71-87 | 404 for a missing club, 400 for an existing member, passing exactly for a non-member of an existing club |
| Community.MemberCheck | server/controllers/communityController.js:151-169 | passes exactly for a member of an existing club; 404 for a missing club; 403 for a non-member |
| Community.GuardStatusLost | server/controllers/communityController.js:115-121 | as written, the catch block turns a guard's 4xx into 500, for example when an existing member joins again |
| Community.PostType | server/controllers/communityController.js:183 | a post's type defaults to 'discussion' |
| Community.ClubQuerySelects | server/controllers/communityController.js:45-51 | a club is selected exactly when an empty `sport` or an equal sport, and an empty `search` or a pattern match on the name or the description |
| Community.CommunityStore.GetClubs | server/controllers/communityController.js:40-63 | a search pattern that does not compile gives 500; otherwise 200 with exactly the stored clubs of the given sport whose name or description matches the given search |
| Community.CommunityStore.CreateClub | server/controllers/communityController.js:7-38 | a complete request stores the club with the creator as its only member and admin, and answers 201. An incomplete one stores nothing and, as written, answers 500 |
| Community.CommunityStore.JoinClub | server/controllers/communityController.js:65-123 | a passing join appends the caller exactly once and answers 200; a failing one (missing club, existing member) changes nothing and, as written, answers 500 |
| Community.CommunityStore.CreatePost | server/controllers/communityController.js:131-208 | title, content and clubId are required; the club must exist and the caller must be a member. The schema trims the title, so a blank title fails validation, as does a type outside the enumeration. Otherwise one post is stored with the trimmed title and the default type. The reply is 201 or, for every failure including the guards, 500 |
| Community.CommunityStore.GetPosts | server/controllers/communityController.js:210-245 | a member receives exactly the club's posts with 200. A missing clubId, an unknown club and a non-member receive none and, as written, 500 |
| Community.CommunityStore.LikePost | server/controllers/communityController.js:247-300 | an unknown post gives 404; otherwise the caller's like is toggled |
| Community.CommunityStore.CommentOnPost | server/controllers/communityController.js:302-349 | an unknown post gives 404 and empty content fails; otherwise exactly one comment is appended |
| Community.CommunityStore.DeletePost | server/controllers/communityController.js:351-385 | 404 for an unknown post, 403 unless the caller is the author, otherwise the post is removed |
| TrainingVideos.YouTubeId | server/models/TrainingVideo.js:24-28 | the id captured after the rightmost marker on the first line contains no '#', '&' or '?' |
| TrainingVideos.LastMarker | server/models/TrainingVideo.js:24 | the greedy `^.*` leaves the marker group at the rightmost marker position that can be reached |
| TrainingVideos.LineLimit | server/models/TrainingVideo.js:24 | `.*` stops at the first line terminator |
| TrainingVideos.IdRun | server/models/TrainingVideo.js:24 | the capture `[^#&?]*` is the maximal run without '#', '&' or '?' |
| TrainingVideos.UpgradeHttp | server/models/TrainingVideo.js:111-113 | a leading 'http:' becomes 'https:'; any other url is unchanged |
| TrainingVideos.CloudinaryKept | server/models/TrainingVideo.js:19-21 | a url containing 'cloudinary.com' is accepted and never rewritten |
| TrainingVideos.YouTubeRewritten | server/models/TrainingVideo.js:99-102 | a non-embed YouTube url is accepted and becomes the nocookie embed link of its id |
| TrainingVideos.UpgradeUnreachable | server/models/TrainingVideo.js:31-36 | a url accepted only for its 'https:' protocol is never rewritten, so the http-to-https branch never fires on a validated url |
| TrainingVideos.CanonicalCapture | server/models/TrainingVideo.js:96-99 | the pattern recaptures the 11-character id from its canonical embed link, unless a marker inside the id leaves a capture of at most 9 characters |
| TrainingVideos.CanonicalShape | server/models/TrainingVideo.js:96-106 | the canonical link contains '/embed/' and the nocookie host and does not start with 'http:', so none of the hook's rewrites applies to it |
| TrainingVideos.CanonicalStable | server/models/TrainingVideo.js:96-106 | the canonical embed link is left unchanged by the hook, whatever follows the prefix |
| TrainingVideos.NocookieEmbedStable | server/models/TrainingVideo.js:91-116 | a link with '/embed/' and the nocookie host that does not start with 'http:' is left unchanged, whether or not the pattern accepts it |
| TrainingVideos.NormaliseIdempotentYouTube | server/models/TrainingVideo.js:96-106 | normalising a non-embed YouTube url twice gives the same result as once |
| TrainingVideos.HostRewriteKeepsEmbed | server/models/TrainingVideo.js:103-106 | replacing 'www.youtube.com' keeps an occurrence of '/embed/' |
| TrainingVideos.HostRewriteShape | server/models/TrainingVideo.js:103-106 | the replacement puts the nocookie host in and cannot create a leading 'http:' |
| TrainingVideos.EmbedRewriteIdempotent | server/models/TrainingVideo.js:103-106 | for an embed link that does not start with 'http:', a second pass leaves the rewritten link unchanged |
| TrainingVideos.NormaliseIdempotent | server/models/TrainingVideo.js:88-120 | the hook is idempotent on every url the validator accepts, except an 'http:' embed link on the plain YouTube host |
| TrainingVideos.NocookieEmbedKept | server/models/TrainingVideo.js:103-106 | an embed url already on youtube-nocookie.com is left unchanged |
| TrainingVideos.EmbedOtherHostKept | server/models/TrainingVideo.js:103-106 | an embed url with no 'www.youtube.com' in it is left unchanged |
| TrainingVideos.CreateVideo | server/controllers/trainingVideoController.js:9-50 | a created video belongs to the caller, with the trimmed non-empty title and no views, likes or comments. A title of white space alone passes the guard but fails validation |
| TrainingVideos.CreateErrorStatuses | server/controllers/trainingVideoController.js:55-71 | a missing-field error surfaces as 500; the missing-source error surfaces as 400 because its message contains 'URL'; a validation error surfaces as 400 |
| TrainingVideos.DeleteErrorStatuses | server/controllers/trainingVideoController.js:248-261 | the 'not found' error maps to 404 and the 'Not authorized' error maps to 403 |
| TrainingVideos.VideoQuerySelects | server/controllers/trainingVideoController.js:83-91 | a video is selected exactly when each of sport and category is empty or equal, and the search is empty or its pattern matches the title or the description |
| TrainingVideos.VideoStore.CreateTrainingVideo | server/controllers/trainingVideoController.js:9-73 | a created video is stored under a fresh id, with its trimmed title, and answers 201; a thrown error stores nothing and answers its mapped status (a blank title is a validation error, 400) |
| TrainingVideos.VideoStore.GetTrainingVideo | server/controllers/trainingVideoController.js:109-130 | a fetch increases views by exactly 1; a missing video ends in 500 |
| TrainingVideos.VideoStore.LikeTrainingVideo | server/controllers/trainingVideoController.js:135-174 | the caller's like is toggled; a missing video ends in 500 |
| TrainingVideos.VideoStore.CommentOnTrainingVideo | server/controllers/trainingVideoController.js:179-220 | empty content or a missing video ends in 500; otherwise exactly one comment is appended |
| TrainingVideos.VideoStore.DeleteTrainingVideo | server/controllers/trainingVideoController.js:225-265 | 404 for a missing video, 403 unless the caller is the author, otherwise the video is removed |
| TrainingVideos.VideoStore.GetTrainingVideos | server/controllers/trainingVideoController.js:78-104 | a search pattern that does not compile gives 500; otherwise 200 with exactly the stored videos that match the given sport and category and whose title or description matches the search |
| Auth.OtpRange | server/routes/auth.js:105 | the code is in [100000, 999999] |
| Auth.OtpStringSixDigits | server/routes/auth.js:105 | the code's decimal string has exactly six digits |
| Auth.DecimalString | server/routes/auth.js:105 | `toString()` of a natural is a non-empty string of decimal digits |
| Auth.DecimalInjective | server/routes/auth.js:201-203 | different numbers have different decimal strings, so comparing the codes as strings compares them as numbers |
| Auth.ExpiredExactly | server/routes/auth.js:206-214 | a code expires exactly when at least 11 whole minutes have passed; 10 minutes and 59 seconds still passes |
| Auth.VerificationStore.RequestVerification | server/routes/auth.js:94-142 | an email with an account gets 400; otherwise a fresh six-digit entry replaces any earlier one, and a failed mail send answers 500 with the entry stored |
| Auth.VerificationStore.ResendVerification | server/routes/auth.js:145-188 | no entry gives 400; otherwise only otp and createdAt change, and name and token are kept |
| Auth.VerificationStore.VerifyEmail | server/routes/auth.js:191-224 | a missing entry, a wrong code and an expired code fail in that order; success is exactly the remaining case and returns the stored token without deleting the entry |
| Auth.VerificationStore.CompleteRegistration | server/routes/auth.js:227-288 | an entry, a matching token and the same window are required; success creates a verified account and deletes the entry, so a second completion fails |
| Auth.VerificationStore.Login | server/routes/auth.js:291-332 | an unknown email and a wrong password get the identical 400 reply |
| Auth.RegisterOutcome | server/routes/auth.js:335-373 | a known email gives 400 and a failed save 500, both with no change. Otherwise the account is stored, and the reply is 201 exactly when JWT_SECRET is set (500 otherwise) |
| Auth.RegisterFailureStrandsAccount | server/routes/auth.js:352-359 | as written, without JWT_SECRET the reply is 500 although the account is stored, and a retry is refused with 400 |
| Auth.RegisterIntended | server/routes/auth.js:352-368 | signing with the configured secret, a reply other than 201 leaves the accounts unchanged, and 201 comes exactly for a new email whose save succeeds |
| Auth.VerificationStore.Register | server/routes/auth.js:335-373 | the reply and the accounts are those of `RegisterOutcome` |
| Config.Lines | server/config.js:17 | splitting on '\n' gives at least one line, none containing '\n' |
| Config.LinesRoundTrip | server/config.js:17 | joining the lines with '\n' gives back the file |
| Config.SkipFacts | server/config.js:22 | each greedy run covers only characters of its class and stops at the first character outside it |
| Config.ParseLine | server/config.js:19-27 | empty lines and lines starting with '#' are skipped |
| Config.UnquoteStrips | server/config.js:27 | one leading and one trailing quote are stripped independently, mismatched pairs included |
| Config.UnquoteKeeps | server/config.js:27 | a value without quotes at its ends is unchanged |
| Config.MatchLineFromRuns | server/config.js:22-27 | a line whose greedy runs end at a key, an '=' and a value matches with that key and the unquoted value |
| Config.ParseRoundTrip | server/config.js:19-27 | a line `KEY = value`, with any whitespace around the key and the '=', parses to exactly that key and value |
| Config.Parsed | server/config.js:17-23 | each line is parsed independently |
| Config.AccKeys | server/config.js:35 | the returned object has a key exactly when some line parses with that key |
| Config.LastDuplicateWins | server/config.js:35 | a key's returned value is the value of the last line that parses with that key |
| Config.EnvKeysGrow | server/config.js:30-33 | the environment only gains keys, and each new key comes from a parsed line |
| Config.UntouchedKey | server/config.js:30-33 | a key no line defines keeps its environment value |
| Config.EarlierValueWins | server/config.js:30-33 | a non-empty environment value is never overwritten |
| Config.Environment.LoadEnvVars | server/config.js:10-49 | a missing file yields {} and leaves the environment alone; otherwise the reduce computes the specification fold's object and environment |
| Config.Setting | server/config.js:60-64 | `process.env.X \|\| fallback`: the variable's value when it is set and non-empty, otherwise the fallback |
| Config.JwtSecretSource | server/config.js:30-33 | the secret comes from a pre-set non-empty JWT_SECRET, and is the fallback when it is unset and no line defines it |
| Config.DefaultSettings | server/config.js:55-66 | with every variable unset, the defaults are port 5000, 'development', the local MongoDB uri and the fallback secret |

## Left out

- `populate` and the `$near` distance computation are left to the database (the `near` parameter); the interaction records are an input. The order of `$near` results is whatever `near` returns.
- Regular-expression matching for the club and video searches is the `compile` parameter. The model does not fix its semantics, and it does not model that MongoDB compiles the `$regex` strings while the `tags` alternative is compiled by JavaScript.
- TrainingVideos.SelectedBy: the third search alternative, on `tags`, is taken to match nothing, because no video has that path. A Mongoose `strictQuery` setting that strips unknown paths would turn it into an empty condition matching every video; that version-dependent behaviour is not modelled.
- Interactions.InteractionStore.Record: each request is applied as one atomic step. The handler reads the record and then saves the incremented count, so two concurrent requests can lose an increment, or both can try to create the record and one fails on the unique index with 500. Concurrent requests are not modelled.
- Ids of clubs, posts, matches, videos and friend requests are naturals, so a malformed id cannot be expressed. In the source it makes the lookup throw a CastError, answered with 500; the model's only bad-id outcome is the not-found reply. This concerns Community.CommunityStore.LikePost, Community.CommunityStore.CommentOnPost, Community.CommunityStore.DeletePost, CricketMatches.MatchTable.JoinMatch, TrainingVideos.VideoStore.DeleteTrainingVideo and Social.SocialStore.RespondToFriendRequest.
- User ids compare by their exact string. An upper-case spelling of the caller's own hexadecimal id passes the `===` self-guards of Social.SocialStore.SendFriendRequest and Interactions.InteractionStore.Record, yet it casts to the caller's own ObjectId; the model treats it as a different user. A 12-character string id is likewise kept as given, not as its cast hexadecimal form.
- Express routing, middleware, the JWT issued at login and response bodies beyond status and message are not modelled.
- bcrypt is not modelled; passwords are compared as plain strings. Nodemailer (the `mailSent` parameter), `crypto.randomBytes` (the `token` parameter), Cloudinary and multer (the `uploadedUrl` parameter) and `new URL` (the `protocol` parameter) are parameters.
- Floating-point rounding is not modelled; all scores are exact reals, and `Math.sqrt` is any function satisfying `IsSqrt`.
- User.js is not part of this model. Friend lists, accounts and profile ownership are kept in the stores' own maps.
- The football matching path, activity logging (its failures are swallowed) and all client code are not modelled.
- Interaction ratings are integers; a fractional rating sent by a client is not modelled.
- The spread of the request body in `createMatch` beyond the modelled fields is not modelled. The parsing of the `${date}T${time}` string is the `toDate` parameter.
- The order in which MongoDB returns documents is not modelled. Where the source does not sort, the model keeps the store's order.
- getClubs, getPosts and getTrainingVideos sort their results by `createdAt`, newest first. The model returns them as sets of ids, so that order is not modelled.
- searchCricketPartners copies minFieldingSkill and maxFieldingSkill into `partnerPreferences`, but the profile schema has no such paths, so the ODM drops them and `PreferencesFrom` has no such fields. The search query itself does filter on them (`QueryMatches`).
- DefaultSettings: the port default is the string "5000"; the source's default is the number 5000, while an environment value is a string.
- Config.Environment.LoadEnvVars: a key named `__proto__` has special behaviour on a JavaScript object and is not modelled; the object is a plain map.
- TrainingVideos.Normalise: the `isModified('url')` guard is not modelled separately. Only creation sets a url, and like, comment and view updates never change it.
- TrainingVideos.NormaliseIdempotent: idempotence is not proved for an 'http:' embed link on the plain YouTube host. After the rewrite such a link still starts with 'http:', so its second pass depends on the pattern accepting the rewritten string. Proving that would need the pattern's matches on the rewritten string.
- The training-video handlers getTrainingVideo, likeTrainingVideo and commentOnTrainingVideo set 404 or 400 and then throw inside their own try block, so their catch answers 500. They are modelled as written (500). This is the same overwrite as in the community handlers, which are also modelled as written.

## Findings

| source | as written | input that shows it | evidently intended | confidence | as-written member | corrected member |
|---|---|---|---|---|---|---|
| server/controllers/cricketController.js:294-321 | populates `organizer` and reads `match.organizer.name`, but the match schema has no `organizer` path (it has `creator`), so the handler throws after the lookup and answers 500 | any existing match id: the caller is saved as a participant and the reply is still 500 | 404 for an unknown match, otherwise add the caller once and answer 200 | not executed | CricketMatches.JoinCricketMatchAlwaysFails | CricketMatches.JoinCricketMatchOutcome |
| server/controllers/communityController.js:115-121 | each guard sets 400, 403 or 404 and throws inside the handler's own try, and the catch overwrites the status with 500 | joinClub by a user already in `members`: 500 instead of 400 | the status the guard set (400, 403 or 404) | not executed | Community.GuardStatusLost | Community.Reported |
| server/routes/auth.js:352-359 | the legacy register route saves the account and then signs the token with `process.env.JWT_SECRET` directly, not with the configured secret that falls back to a default | JWT_SECRET unset and a new email: the account is stored, the signing throws, the reply is 500, and a retry gets 400 'User already exists' | sign with the configured secret, as login does, so a stored account is always answered 201 | not executed | Auth.RegisterFailureStrandsAccount | Auth.RegisterIntended |
