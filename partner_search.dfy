/**
 * The partner-finding handlers of server/controllers/cricketController.js:
 * `findCricketPartners` (the requester's stored preferences) and
 * `searchCricketPartners` (preferences submitted with the request). The
 * geospatial lookup `$near` is done by the database, which is a parameter
 * here: given a centre and a radius it answers the profiles within that
 * radius, nearest first, or None when it rejects the query. What the
 * handlers' queries add to it (the requester exclusion and, for the search,
 * the conditions of `QueryMatches`) is stated in the model.
 */
module PartnerSearch {
  import opened Common
  import opened CricketProfiles
  import opened VectorSimilarity
  import opened Interactions
  import opened Matching

  /** The radius when the client gives no distance (or a zero one), in metres. */
  const DefaultRadius: real := 10000.0

  /** The `$maxDistance` a handler sends: metres, or NaN when the distance does not parse as a number. */
  datatype Radius = Meters(m: real) | NotANumber

  /** The geospatial part of a partner query: the centre's coordinates and the radius. */
  datatype GeoQuery = GeoQuery(center: seq<real>, radius: Radius)

  /**
   * findCricketPartners' radius from the raw `distance` query parameter:
   * an absent or empty parameter is falsy and gives 10 km; any other string,
   * "0" included, is truthy and is converted with `Number` (the parameter
   * `toNumber`, None standing for NaN) and multiplied by 1000.
   */
  function RadiusFromQuery(distance: Option<string>, toNumber: string -> Option<real>): (r: Radius)
    ensures distance.None? || distance == Some("") ==> r == Meters(DefaultRadius)
    ensures distance.Some? && distance.value != "" && toNumber(distance.value).None? ==> r == NotANumber
    ensures distance.Some? && distance.value != "" && toNumber(distance.value).Some? ==>
      r == Meters(toNumber(distance.value).value * 1000.0)
  {
    if distance.None? || distance.value == "" then Meters(DefaultRadius)
    else match toNumber(distance.value)
      case None => NotANumber
      case Some(n) => Meters(n * 1000.0)
  }

  /**
   * searchCricketPartners' radius from the body's `maxDistance`, a number
   * (0 standing for an absent one): 0 is falsy and gives 10 km.
   */
  function RadiusFromBody(maxDistance: real): (r: Radius)
    ensures maxDistance == 0.0 ==> r == Meters(DefaultRadius)
    ensures maxDistance != 0.0 ==> r == Meters(maxDistance * 1000.0)
  {
    if maxDistance != 0.0 then Meters(maxDistance * 1000.0) else Meters(DefaultRadius)
  }

  /**
   * The two handlers agree on every non-zero numeric distance, but not on
   * zero: `?distance=0` is a non-empty string and asks for a radius of 0 m,
   * while a `maxDistance` of 0 falls back to 10 km.
   */
  lemma RadiusesAgreeExceptZero(s: string, n: real, toNumber: string -> Option<real>)
    requires s != "" && toNumber(s) == Some(n)
    ensures n != 0.0 ==> RadiusFromQuery(Some(s), toNumber) == RadiusFromBody(n)
    ensures n == 0.0 ==> RadiusFromQuery(Some(s), toNumber) == Meters(0.0) != RadiusFromBody(n)
  {
  }

  /** A list holding 'Any' stands for the whole enumeration; any other list is used as it is. */
  function Expand(choices: seq<string>, all: seq<string>): (r: seq<string>)
    ensures AnyChoice in choices ==> r == all
    ensures AnyChoice !in choices ==> r == choices
  {
    if AnyChoice in choices then all else choices
  }

  /** The body of a search request. A `maxDistance` of 0 stands for an absent one. */
  datatype SearchRequest = SearchRequest(
    minBattingSkill: real, maxBattingSkill: real,
    minBowlingSkill: real, maxBowlingSkill: real,
    minFieldingSkill: real, maxFieldingSkill: real,
    preferredBattingStyles: seq<string>,
    preferredBowlingStyles: seq<string>,
    preferredPositions: seq<string>,
    preferredTime: seq<string>,
    weekdays: bool, weekends: bool,
    complementarySkills: Option<bool>,
    maxDistance: real,
    useProfileLocation: bool,
    location: Location)

  /** The search query's conditions on a profile besides the radius and the requester exclusion. */
  predicate QueryMatches(req: SearchRequest, p: CricketProfile)
  {
    && req.minBattingSkill <= p.battingSkill <= req.maxBattingSkill
    && req.minBowlingSkill <= p.bowlingSkill <= req.maxBowlingSkill
    && req.minFieldingSkill <= p.fieldingSkill <= req.maxFieldingSkill
    && p.battingStyle in Expand(req.preferredBattingStyles, BattingStyles)
    && p.bowlingStyle in Expand(req.preferredBowlingStyles, BowlingStyles)
    && p.preferredPosition.Some? && p.preferredPosition.value in Expand(req.preferredPositions, Positions)
    && p.availability.weekdays == req.weekdays
    && p.availability.weekends == req.weekends
    && p.availability.preferredTime in Expand(req.preferredTime, Times)
  }

  /** The preferences the search installs on the requester's profile; complementarySkills falls back to false. */
  function PreferencesFrom(req: SearchRequest): (prefs: PartnerPreferences)
    ensures prefs.minBattingSkill == req.minBattingSkill && prefs.maxBattingSkill == req.maxBattingSkill
    ensures prefs.minBowlingSkill == req.minBowlingSkill && prefs.maxBowlingSkill == req.maxBowlingSkill
    ensures prefs.preferredBattingStyles == req.preferredBattingStyles
    ensures prefs.preferredBowlingStyles == req.preferredBowlingStyles
    ensures prefs.preferredPositions == req.preferredPositions
    ensures prefs.preferredAvailability == PreferredAvailability(req.weekdays, req.weekends, req.preferredTime)
    ensures prefs.complementarySkills <==> req.complementarySkills == Some(true)
    ensures prefs.maxDistance == req.maxDistance
  {
    PartnerPreferences(
      req.minBattingSkill, req.maxBattingSkill,
      req.minBowlingSkill, req.maxBowlingSkill,
      req.preferredBattingStyles, req.preferredBowlingStyles, req.preferredPositions,
      PreferredAvailability(req.weekdays, req.weekends, req.preferredTime),
      req.complementarySkills == Some(true),
      req.maxDistance)
  }

  /** The requester's profile as the search scores it. */
  function WithPreferences(u: CricketProfile, req: SearchRequest): CricketProfile
  {
    u.(partnerPreferences := Some(PreferencesFrom(req)))
  }

  /**
   * For a schema-valid candidate the query holds exactly when the hard
   * filter under the submitted preferences holds and, in addition, the
   * fielding skill is in range, both day flags are equal to the submitted
   * ones (not merely implied by them) and a position is set.
   */
  lemma QueryCharacterised(u: CricketProfile, req: SearchRequest, p: CricketProfile)
    requires ValidProfile(p)
    ensures QueryMatches(req, p) <==>
      && Meets(WithPreferences(u, req), p)
      && req.minFieldingSkill <= p.fieldingSkill <= req.maxFieldingSkill
      && p.availability.weekdays == req.weekdays
      && p.availability.weekends == req.weekends
      && p.preferredPosition.Some?
  {
  }

  /** Every profile the query returns passes the hard filter, valid or not. */
  lemma QueryImpliesMeets(u: CricketProfile, req: SearchRequest, p: CricketProfile)
    requires QueryMatches(req, p)
    ensures Meets(WithPreferences(u, req), p)
  {
  }

  /** The query is strictly stronger: a weekday player passes the filter of a weekends-only search but not the query. */
  lemma QueryStricterThanMeets(u: CricketProfile, req: SearchRequest, p: CricketProfile)
    requires Meets(WithPreferences(u, req), p)
    requires !req.weekdays && p.availability.weekdays
    ensures !QueryMatches(req, p)
  {
  }

  /** One entry of the response: the profile's public fields, with the location reduced to its address. */
  datatype PartnerView = PartnerView(
    user: UserId,
    battingSkill: real, bowlingSkill: real, fieldingSkill: real,
    battingStyle: string, bowlingStyle: string,
    preferredPosition: Option<string>,
    availability: Availability,
    address: string,
    similarityScore: int,
    matchDetails: Details)

  function View(m: MatchScore): PartnerView
  {
    var p := m.profile;
    PartnerView(p.user, p.battingSkill, p.bowlingSkill, p.fieldingSkill, p.battingStyle, p.bowlingStyle,
                p.preferredPosition, p.availability, p.location.address, m.similarityScore, m.details)
  }

  /** The response list: one view per ranked match, in the same order. */
  function Format(ms: seq<MatchScore>): (r: seq<PartnerView>)
    ensures |r| == |ms|
    ensures forall i :: 0 <= i < |ms| ==> r[i].user == ms[i].profile.user && r[i].similarityScore == ms[i].similarityScore
  {
    seq(|ms|, i requires 0 <= i < |ms| => View(ms[i]))
  }

  /** The requester exclusion `user: {$ne: ...}` both queries carry. */
  function Others(ps: seq<CricketProfile>, me: UserId): (r: seq<CricketProfile>)
    ensures |r| <= |ps|
    ensures forall p :: p in r <==> p in ps && p.user != me
  {
    Filter(ps, (p: CricketProfile) => p.user != me)
  }

  /** What the search query returns out of the profiles within its radius: the requester excluded, `QueryMatches` kept. */
  function SearchHits(ps: seq<CricketProfile>, me: UserId, req: SearchRequest): (r: seq<CricketProfile>)
    ensures |r| <= |ps|
    ensures forall p :: p in r <==> p in ps && p.user != me && QueryMatches(req, p)
  {
    Filter(ps, (p: CricketProfile) => p.user != me && QueryMatches(req, p))
  }

  /** A reply: 404 and 500 carry only a message, the empty neighbourhood also an empty list, and a ranking its `count` too. */
  datatype Response = Response(status: int, message: string, partners: seq<PartnerView>, count: Option<int>)

  const NoProfile: string := "Please create your cricket profile first"

  /**
   * findCricketPartners. A missing requester profile gives 404; otherwise
   * the database is asked for the profiles within the radius taken from the
   * raw `distance` parameter around the requester's stored location. A
   * rejected query is a 500, an empty answer (after the requester exclusion)
   * 200 with no partners and no count, and any other answer the ranked
   * matches with their number.
   */
  method FindCricketPartners(distance: Option<string>, userProfile: Option<CricketProfile>,
                             near: GeoQuery -> Option<seq<CricketProfile>>, toNumber: string -> Option<real>,
                             userInteractions: map<UserId, Affinity>, sqrt: real -> real)
    returns (res: Response)
    requires IsSqrt(sqrt)
    ensures userProfile.None? ==> res == Response(404, NoProfile, [], None)
    ensures userProfile.Some? ==>
      var u := userProfile.value;
      var found := near(GeoQuery(u.location.coordinates, RadiusFromQuery(distance, toNumber)));
      && (found.None? ==> res == Response(500, "Server error", [], None))
      && (found.Some? && Others(found.value, u.user) == [] ==>
            res == Response(200, "No players found in your area", [], None))
      && (found.Some? && Others(found.value, u.user) != [] ==>
            && res.status == 200
            && res.partners == Format(BestMatches(u, Others(found.value, u.user), userInteractions, sqrt))
            && res.count == Some(|res.partners|))
  {
    if userProfile.None? {
      return Response(404, NoProfile, [], None);
    }
    var u := userProfile.value;
    var found := near(GeoQuery(u.location.coordinates, RadiusFromQuery(distance, toNumber)));
    if found.None? {
      return Response(500, "Server error", [], None);
    }
    var nearbyProfiles := Others(found.value, u.user);
    if |nearbyProfiles| == 0 {
      return Response(200, "No players found in your area", [], None);
    }
    var partnersWithScores := FindBestMatches(u, nearbyProfiles, userInteractions, sqrt);
    var formattedPartners := Format(partnersWithScores);
    res := Response(200, "Partners found", formattedPartners, Some(|formattedPartners|));
  }

  /**
   * searchCricketPartners. A missing requester profile gives 404; otherwise
   * the query is centred on the stored location when the body asks for it
   * and on the submitted one otherwise, with the radius from `maxDistance`,
   * and its hits are ranked under the submitted preferences, which replace
   * the stored ones. There is no separate answer for an empty result.
   */
  method SearchCricketPartners(req: SearchRequest, userProfile: Option<CricketProfile>,
                               near: GeoQuery -> Option<seq<CricketProfile>>,
                               userInteractions: map<UserId, Affinity>, sqrt: real -> real)
    returns (res: Response)
    requires IsSqrt(sqrt)
    ensures userProfile.None? ==> res == Response(404, NoProfile, [], None)
    ensures userProfile.Some? ==>
      var u := userProfile.value;
      var center := if req.useProfileLocation then u.location.coordinates else req.location.coordinates;
      var found := near(GeoQuery(center, RadiusFromBody(req.maxDistance)));
      && (found.None? ==> res == Response(500, "Server error", [], None))
      && (found.Some? ==>
            && res.status == 200
            && res.partners == Format(BestMatches(WithPreferences(u, req), SearchHits(found.value, u.user, req),
                                                  userInteractions, sqrt))
            && res.count == Some(|res.partners|))
  {
    if userProfile.None? {
      return Response(404, NoProfile, [], None);
    }
    var searchLocation := if req.useProfileLocation then userProfile.value.location else req.location;
    var found := near(GeoQuery(searchLocation.coordinates, RadiusFromBody(req.maxDistance)));
    if found.None? {
      return Response(500, "Server error", [], None);
    }
    var nearbyProfiles := SearchHits(found.value, userProfile.value.user, req);
    var u := WithPreferences(userProfile.value, req);
    var partnersWithScores := FindBestMatches(u, nearbyProfiles, userInteractions, sqrt);
    var formattedPartners := Format(partnersWithScores);
    res := Response(200, "Partners found", formattedPartners, Some(|formattedPartners|));
  }

  /**
   * Since the query implies the hard filter, ranking loses none of the
   * profiles the search query returned: every profile within the radius
   * that satisfies the query, other than the requester's own, gets a place
   * in the response.
   */
  lemma SearchKeepsQueryResults(u: CricketProfile, req: SearchRequest, found: seq<CricketProfile>,
                                interactions: map<UserId, Affinity>, sqrt: real -> real, p: CricketProfile)
    requires IsSqrt(sqrt)
    requires p in found && QueryMatches(req, p) && p.user != u.user
    ensures exists v :: v in Format(BestMatches(WithPreferences(u, req), SearchHits(found, u.user, req), interactions, sqrt))
                        && v.user == p.user
  {
    var w := WithPreferences(u, req);
    var hits := SearchHits(found, u.user, req);
    QueryImpliesMeets(u, req, p);
    MatchesFacts(w, hits, interactions, sqrt);
    var r := BestMatches(w, hits, interactions, sqrt);
    var m :| m in r && m.profile == p;
    var i :| 0 <= i < |r| && r[i] == m;
    assert Format(r)[i].user == p.user;
  }

  /** Conversely, every partner the search lists is a profile within the radius that satisfies the query and is not the requester's. */
  lemma SearchReturnsOnlyQueryResults(u: CricketProfile, req: SearchRequest, found: seq<CricketProfile>,
                                      interactions: map<UserId, Affinity>, sqrt: real -> real, i: nat)
    requires IsSqrt(sqrt)
    requires i < |Format(BestMatches(WithPreferences(u, req), SearchHits(found, u.user, req), interactions, sqrt))|
    ensures var v := Format(BestMatches(WithPreferences(u, req), SearchHits(found, u.user, req), interactions, sqrt))[i];
      exists p :: p in found && p.user == v.user && p.user != u.user && QueryMatches(req, p)
  {
    var w := WithPreferences(u, req);
    var hits := SearchHits(found, u.user, req);
    MatchesFacts(w, hits, interactions, sqrt);
    var r := BestMatches(w, hits, interactions, sqrt);
    assert r[i] in r;
  }
}
