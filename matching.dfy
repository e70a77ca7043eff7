/**
 * The cricket partner-matching engine (server/utils/collaborativeFiltering.js):
 * the profile feature vector, the four sub-scores, the hard preference
 * filter and `findBestMatches`, which filters, scores, rounds and ranks
 * candidate profiles.
 */
module Matching {
  import opened Common
  import opened CricketProfiles
  import opened VectorSimilarity
  import opened Sorting
  import opened Interactions

  function Indicator(b: bool): (r: real)
    ensures r == 0.0 || r == 1.0
  {
    if b then 1.0 else 0.0
  }

  function Abs(x: real): (r: real)
    ensures r >= 0.0 && (r == x || r == -x)
  {
    if x < 0.0 then -x else x
  }

  /** profileToFeatureVector: three scaled skills, then one-hot groups for position, batting style, bowling style, days and time. */
  function FeatureVector(p: CricketProfile): (v: Vector)
    ensures |v| == 17
  {
    var pos := p.preferredPosition;
    [ p.battingSkill / 10.0, p.bowlingSkill / 10.0, p.fieldingSkill / 10.0,
      Indicator(pos == Some("Batsman")), Indicator(pos == Some("Bowler")),
      Indicator(pos == Some("All-rounder")), Indicator(pos == Some("Wicket-keeper")),
      Indicator(p.battingStyle == "Right-handed"), Indicator(p.battingStyle == "Left-handed"),
      Indicator(p.bowlingStyle == "Fast"), Indicator(p.bowlingStyle == "Medium"),
      Indicator(p.bowlingStyle == "Spin"),
      Indicator(p.availability.weekdays), Indicator(p.availability.weekends),
      Indicator(p.availability.preferredTime == "Morning"),
      Indicator(p.availability.preferredTime == "Afternoon"),
      Indicator(p.availability.preferredTime == "Evening") ]
  }

  /** The one-hot entries are 0 or 1, and the skill entries of a valid profile are in [0.1, 1]. */
  lemma FeatureVectorRange(p: CricketProfile)
    ensures var v := FeatureVector(p);
      && (forall i :: 3 <= i < 17 ==> v[i] == 0.0 || v[i] == 1.0)
      && (ValidProfile(p) ==> forall i :: 0 <= i < 3 ==> 0.1 <= v[i] <= 1.0)
  {
    OneHotEntries(p);
    if ValidProfile(p) {
      SkillEntries(p);
    }
  }

  lemma OneHotEntries(p: CricketProfile)
    ensures var v := FeatureVector(p); forall i :: 3 <= i < 17 ==> v[i] == 0.0 || v[i] == 1.0
  {
  }

  lemma SkillEntries(p: CricketProfile)
    requires ValidProfile(p)
    ensures var v := FeatureVector(p); forall i :: 0 <= i < 3 ==> 0.1 <= v[i] <= 1.0
  {
  }

  /**
   * Each one-hot group sums to 1 when the field holds one of its enumeration
   * values and to 0 otherwise (an absent position included); with entries of
   * 0 or 1, at most one entry per group is set.
   */
  lemma FeatureVectorGroups(p: CricketProfile)
    ensures var v := FeatureVector(p);
      && v[3] + v[4] + v[5] + v[6]
         == (if p.preferredPosition.Some? && p.preferredPosition.value in Positions then 1.0 else 0.0)
      && v[7] + v[8] == (if p.battingStyle in BattingStyles then 1.0 else 0.0)
      && v[9] + v[10] + v[11] == (if p.bowlingStyle in BowlingStyles then 1.0 else 0.0)
      && v[14] + v[15] + v[16] == (if p.availability.preferredTime in Times then 1.0 else 0.0)
  {
  }

  lemma {:induction false} NormAtLeastEntry(a: Vector, i: nat)
    requires i < |a|
    ensures Norm(a) >= a[i] * a[i]
  {
    var n := |a| - 1;
    assert a[n] * a[n] >= 0.0;
    if i < n {
      NormAtLeastEntry(a[..n], i);
      assert a[..n][i] == a[i];
    }
  }

  /** A valid profile's vector is non-negative and non-zero, so its similarity to itself is exactly 1. */
  lemma SelfSimilarity(p: CricketProfile, sqrt: real -> real)
    requires IsSqrt(sqrt) && ValidProfile(p)
    ensures Cosine(FeatureVector(p), FeatureVector(p), sqrt) == Ok(1.0)
  {
    var v := FeatureVector(p);
    FeatureVectorRange(p);
    NormAtLeastEntry(v, 0);
    assert v[0] >= 0.1;
    MulPositive(v[0], v[0]);
    CosineSelf(v, sqrt);
  }

  /** Similarity of two valid profiles lies in [0, 1]. */
  lemma SimilarityBounded(u: CricketProfile, p: CricketProfile, sqrt: real -> real)
    requires IsSqrt(sqrt) && ValidProfile(u) && ValidProfile(p)
    ensures 0.0 <= Cosine(FeatureVector(u), FeatureVector(p), sqrt).value <= 1.0
  {
    FeatureVectorRange(u);
    FeatureVectorRange(p);
    CosineBounded(FeatureVector(u), FeatureVector(p), sqrt);
  }

  // ---------------------------------------------------------------------
  // Sub-scores

  /** The role half of calculateComplementaryScore. */
  function PositionPart(u: CricketProfile, o: CricketProfile): real
  {
    var a, b := u.preferredPosition, o.preferredPosition;
    if || (a == Some("Batsman") && b == Some("Bowler"))
       || (a == Some("Bowler") && b == Some("Batsman"))
       || (a == Some("Bowler") && b == Some("Wicket-keeper"))
       || (a == Some("Batsman") && b == Some("All-rounder"))
    then 1.0
    else if a == b then 0.5
    else 0.7
  }

  /** The batting/bowling style half of calculateComplementaryScore. */
  function StylePart(u: CricketProfile, o: CricketProfile): real
  {
    if || (u.battingStyle == "Right-handed" && o.bowlingStyle == "Spin")
       || (u.battingStyle == "Left-handed" && o.bowlingStyle == "Fast")
       || (u.bowlingStyle == "Spin" && o.battingStyle == "Right-handed")
       || (u.bowlingStyle == "Fast" && o.battingStyle == "Left-handed")
    then 1.0
    else 0.6
  }

  /** calculateComplementaryScore: the two halves added and divided by 2. */
  function Complementary(u: CricketProfile, o: CricketProfile): (r: real)
    ensures 0.55 <= r <= 1.0
    ensures r == (PositionPart(u, o) + StylePart(u, o)) / 2.0
  {
    var score := PositionPart(u, o);
    var score' := score + StylePart(u, o);
    score' / 2.0
  }

  /**
   * The role half takes only 1, 0.7 or 0.5, and equal roles give 0.5. The
   * style half is symmetric; the role half is not (Batsman with All-rounder
   * scores 1 one way and 0.7 the other).
   */
  lemma ComplementaryParts(u: CricketProfile, o: CricketProfile)
    ensures PositionPart(u, o) in {1.0, 0.7, 0.5} && StylePart(u, o) in {1.0, 0.6}
    ensures u.preferredPosition == o.preferredPosition ==> PositionPart(u, o) == 0.5
    ensures StylePart(u, o) == StylePart(o, u)
    ensures u.preferredPosition == Some("Batsman") && o.preferredPosition == Some("All-rounder") ==>
      PositionPart(u, o) == 1.0 && PositionPart(o, u) == 0.7
  {
  }

  /** calculateSkillBalanceScore. */
  function SkillBalance(u: CricketProfile, o: CricketProfile): real
  {
    1.0 - Abs(SkillAverage(u) - SkillAverage(o)) / 10.0
  }

  /** The balance score is symmetric, 1 for equal averages, and within [0.1, 1] for valid profiles. */
  lemma SkillBalanceFacts(u: CricketProfile, o: CricketProfile)
    ensures SkillBalance(u, o) == SkillBalance(o, u)
    ensures SkillAverage(u) == SkillAverage(o) <==> SkillBalance(u, o) == 1.0
    ensures ValidProfile(u) && ValidProfile(o) ==> 0.1 <= SkillBalance(u, o) <= 1.0
  {
  }

  /** calculateAvailabilityScore: half a point per shared day kind, one point for the same time, halved. */
  function AvailabilityScore(u: CricketProfile, o: CricketProfile): real
  {
    var a, b := u.availability, o.availability;
    var score := (if a.weekdays && b.weekdays then 0.5 else 0.0)
               + (if a.weekends && b.weekends then 0.5 else 0.0)
               + (if a.preferredTime == b.preferredTime then 1.0 else 0.0);
    score / 2.0
  }

  /** The availability score takes only the values 0, 0.25, 0.5, 0.75, 1 and is symmetric. */
  lemma AvailabilityFacts(u: CricketProfile, o: CricketProfile)
    ensures AvailabilityScore(u, o) in {0.0, 0.25, 0.5, 0.75, 1.0}
    ensures AvailabilityScore(u, o) == AvailabilityScore(o, u)
  {
  }

  // ---------------------------------------------------------------------
  // Hard filter

  /** A list check: skipped when the list holds 'Any', otherwise the value must be listed. */
  predicate Allows(choices: seq<string>, value: string)
  {
    AnyChoice in choices || value in choices
  }

  /** The position check: a missing position is never listed. */
  predicate AllowsPosition(choices: seq<string>, position: Option<string>)
  {
    AnyChoice in choices || (position.Some? && position.value in choices)
  }

  /** meetsPartnerPreferences. */
  predicate Meets(u: CricketProfile, o: CricketProfile)
  {
    match u.partnerPreferences
    case None => true
    case Some(prefs) =>
      && prefs.minBattingSkill <= o.battingSkill <= prefs.maxBattingSkill
      && prefs.minBowlingSkill <= o.bowlingSkill <= prefs.maxBowlingSkill
      && Allows(prefs.preferredBattingStyles, o.battingStyle)
      && Allows(prefs.preferredBowlingStyles, o.bowlingStyle)
      && AllowsPosition(prefs.preferredPositions, o.preferredPosition)
      && (prefs.preferredAvailability.weekdays ==> o.availability.weekdays)
      && (prefs.preferredAvailability.weekends ==> o.availability.weekends)
      && Allows(prefs.preferredAvailability.preferredTime, o.availability.preferredTime)
  }

  /** The filter never looks at fielding skill, location or the candidate's own preferences. */
  lemma MeetsIgnores(u: CricketProfile, o: CricketProfile, fielding: real, loc: Location,
                     prefs: Option<PartnerPreferences>)
    ensures Meets(u, o) == Meets(u, o.(fieldingSkill := fielding, location := loc, partnerPreferences := prefs))
  {
  }

  /** An 'Any' entry makes the corresponding attribute irrelevant. */
  lemma MeetsAnyWildcards(u: CricketProfile, o: CricketProfile, batting: string, bowling: string,
                          position: Option<string>, time: string)
    requires u.partnerPreferences.Some?
    requires var prefs := u.partnerPreferences.value;
      && AnyChoice in prefs.preferredBattingStyles && AnyChoice in prefs.preferredBowlingStyles
      && AnyChoice in prefs.preferredPositions && AnyChoice in prefs.preferredAvailability.preferredTime
    ensures Meets(u, o) == Meets(u, o.(battingStyle := batting, bowlingStyle := bowling, preferredPosition := position,
                                      availability := o.availability.(preferredTime := time)))
  {
  }

  /** A range with min above max (which the schema allows) rejects every candidate. */
  lemma MeetsInvertedRange(u: CricketProfile, o: CricketProfile)
    requires u.partnerPreferences.Some?
    requires u.partnerPreferences.value.minBattingSkill > u.partnerPreferences.value.maxBattingSkill
          || u.partnerPreferences.value.minBowlingSkill > u.partnerPreferences.value.maxBowlingSkill
    ensures !Meets(u, o)
  {
  }

  /**
   * Under the schema's default preferences a valid candidate passes exactly
   * when it is available on both weekdays and weekends, so a candidate that
   * kept the default availability (weekends only) never passes.
   */
  lemma MeetsDefaultPreferences(u: CricketProfile, o: CricketProfile)
    requires u.partnerPreferences == Some(DefaultPreferences()) && ValidProfile(o)
    ensures Meets(u, o) <==> o.availability.weekdays && o.availability.weekends
    ensures o.availability == DefaultAvailability() ==> !Meets(u, o)
  {
  }

  // ---------------------------------------------------------------------
  // Preference fit

  /** One skill factor: 1 minus the distance from the range midpoint, relative to the range width (10 when the width is not positive). */
  function SkillFactor(skill: real, lo: real, hi: real): real
  {
    var range := hi - lo;
    var ideal := lo + range / 2.0;
    1.0 - Abs(skill - ideal) / (if range > 0.0 then range else 10.0)
  }

  /** A categorical factor: 1 when matched, 0.1 when not. */
  function ChoiceFactor(matched: bool): real
  {
    if matched then 1.0 else 0.1
  }

  /** The availability factor: half a point per satisfied day preference, one point for the time, halved. */
  function AvailabilityFactor(pa: PreferredAvailability, a: Availability): real
  {
    var availScore := (if !pa.weekdays || a.weekdays then 0.5 else 0.0)
                    + (if !pa.weekends || a.weekends then 0.5 else 0.0)
                    + (if Allows(pa.preferredTime, a.preferredTime) then 1.0 else 0.0);
    availScore / 2.0
  }

  /** calculatePreferenceMatchScore: 1 without preferences, otherwise the mean of six factors. */
  function PreferenceScore(u: CricketProfile, o: CricketProfile): real
  {
    match u.partnerPreferences
    case None => 1.0
    case Some(prefs) =>
      var score := SkillFactor(o.battingSkill, prefs.minBattingSkill, prefs.maxBattingSkill)
                 + SkillFactor(o.bowlingSkill, prefs.minBowlingSkill, prefs.maxBowlingSkill)
                 + ChoiceFactor(Allows(prefs.preferredBattingStyles, o.battingStyle))
                 + ChoiceFactor(Allows(prefs.preferredBowlingStyles, o.bowlingStyle))
                 + ChoiceFactor(AllowsPosition(prefs.preferredPositions, o.preferredPosition))
                 + AvailabilityFactor(prefs.preferredAvailability, o.availability);
      var totalFactors := 6;
      score / totalFactors as real
  }

  lemma HalfOfRange(x: real, range: real)
    requires range > 0.0 && 0.0 <= x <= range / 2.0
    ensures 0.0 <= x / range <= 0.5
  {
    var q := x / range;
    assert x == q * range;
    if q > 0.5 {
      MulPositive(q - 0.5, range);
      assert false;
    }
    if q < 0.0 {
      MulPositive(-q, range);
      assert false;
    }
  }

  /**
   * A skill inside [lo, hi] scores between 0.5 and 1; the midpoint scores 1;
   * a zero-width range measures the distance in tenths.
   */
  lemma SkillFactorFacts(skill: real, lo: real, hi: real)
    ensures lo <= skill <= hi ==> 0.5 <= SkillFactor(skill, lo, hi) <= 1.0
    ensures skill == lo + (hi - lo) / 2.0 ==> SkillFactor(skill, lo, hi) == 1.0
    ensures lo == hi ==> SkillFactor(skill, lo, hi) == 1.0 - Abs(skill - lo) / 10.0
  {
    var range := hi - lo;
    var ideal := lo + range / 2.0;
    if lo <= skill <= hi && range > 0.0 {
      HalfOfRange(Abs(skill - ideal), range);
    }
  }

  /**
   * A candidate that passes the hard filter matches every categorical factor
   * and the availability factor, so its preference score is in [5/6, 1].
   * An unmet categorical factor still adds 0.1.
   */
  lemma PreferenceScoreOfSurvivor(u: CricketProfile, o: CricketProfile)
    requires Meets(u, o)
    ensures 5.0 / 6.0 <= PreferenceScore(u, o) <= 1.0
    ensures u.partnerPreferences.None? ==> PreferenceScore(u, o) == 1.0
  {
    if u.partnerPreferences.Some? {
      var prefs := u.partnerPreferences.value;
      SkillFactorFacts(o.battingSkill, prefs.minBattingSkill, prefs.maxBattingSkill);
      SkillFactorFacts(o.bowlingSkill, prefs.minBowlingSkill, prefs.maxBowlingSkill);
    }
  }

  // ---------------------------------------------------------------------
  // findBestMatches

  datatype Details = Details(
    featureSimilarity: real,
    complementary: real,
    skillBalance: real,
    availability: real,
    preferenceMatch: real,
    interactions: real)

  datatype MatchScore = MatchScore(profile: CricketProfile, similarityScore: int, details: Details)

  function ScoreKey(m: MatchScore): int
  {
    m.similarityScore
  }

  /** The candidates findBestMatches scores: not the requester, and passing the hard filter. */
  predicate Kept(u: CricketProfile, p: CricketProfile)
  {
    p.user != u.user && Meets(u, p)
  }

  /** complementarySkills set: the complementary score; otherwise the neutral 0.5. */
  function ComplementaryComponent(u: CricketProfile, p: CricketProfile): real
  {
    if u.partnerPreferences.Some? && u.partnerPreferences.value.complementarySkills then Complementary(u, p)
    else 0.5
  }

  /** The interaction component: min(score / 100, 1) when the map has an entry for the candidate, else 0. */
  function InteractionComponent(interactions: map<UserId, Affinity>, p: CricketProfile): real
  {
    if |interactions| > 0 && p.user in interactions then
      var x := interactions[p.user].interactionScore as real / 100.0;
      if x < 1.0 then x else 1.0
    else 0.0
  }

  /** The weighted sum of the six components, as a percentage. */
  function Weighted(d: Details): real
  {
    (d.featureSimilarity * 0.2 + d.complementary * 0.2 + d.skillBalance * 0.15
     + d.availability * 0.15 + d.preferenceMatch * 0.25 + d.interactions * 0.05) * 100.0
  }

  /** The match entry built for one kept candidate. */
  function ScoreOf(u: CricketProfile, p: CricketProfile, interactions: map<UserId, Affinity>,
                   sqrt: real -> real): MatchScore
    requires IsSqrt(sqrt)
  {
    var d := Details(
      Cosine(FeatureVector(u), FeatureVector(p), sqrt).value,
      ComplementaryComponent(u, p),
      SkillBalance(u, p),
      AvailabilityScore(u, p),
      PreferenceScore(u, p),
      InteractionComponent(interactions, p));
    MatchScore(p, JsRound(Weighted(d)), d)
  }

  /** The candidates in input order, scored. */
  function Scored(u: CricketProfile, ps: seq<CricketProfile>, interactions: map<UserId, Affinity>,
                  sqrt: real -> real): seq<MatchScore>
    requires IsSqrt(sqrt)
  {
    if |ps| == 0 then []
    else
      var rest := Scored(u, ps[..|ps| - 1], interactions, sqrt);
      var p := ps[|ps| - 1];
      if Kept(u, p) then rest + [ScoreOf(u, p, interactions, sqrt)] else rest
  }

  /** The kept candidates in input order. */
  function KeptProfiles(u: CricketProfile, ps: seq<CricketProfile>): seq<CricketProfile>
  {
    if |ps| == 0 then []
    else
      var rest := KeptProfiles(u, ps[..|ps| - 1]);
      if Kept(u, ps[|ps| - 1]) then rest + [ps[|ps| - 1]] else rest
  }

  /**
   * The scored list has one entry per kept candidate, in input order, so it
   * is no longer than the input; a profile appears exactly when it is a
   * kept input.
   */
  lemma {:induction false} ScoredProfiles(u: CricketProfile, ps: seq<CricketProfile>,
                                          interactions: map<UserId, Affinity>, sqrt: real -> real)
    requires IsSqrt(sqrt)
    ensures var s := Scored(u, ps, interactions, sqrt);
      && |s| == |KeptProfiles(u, ps)| <= |ps|
      && (forall i :: 0 <= i < |s| ==> s[i] == ScoreOf(u, KeptProfiles(u, ps)[i], interactions, sqrt))
      && (forall p :: p in KeptProfiles(u, ps) <==> p in ps && Kept(u, p))
  {
    if |ps| > 0 {
      var n := |ps| - 1;
      ScoredProfiles(u, ps[..n], interactions, sqrt);
      assert ps == ps[..n] + [ps[n]];
    }
  }

  /** The ranking findBestMatches returns: the scored candidates, stably sorted by descending score. */
  function BestMatches(u: CricketProfile, ps: seq<CricketProfile>, interactions: map<UserId, Affinity>,
                       sqrt: real -> real): seq<MatchScore>
    requires IsSqrt(sqrt)
  {
    SortDesc(Scored(u, ps, interactions, sqrt), ScoreKey)
  }

  /** What a well-formed input means: schema-valid profiles and non-negative interaction scores. */
  predicate WellFormed(u: CricketProfile, ps: seq<CricketProfile>, interactions: map<UserId, Affinity>)
  {
    && ValidProfile(u)
    && (forall p :: p in ps ==> ValidProfile(p))
    && (forall k :: k in interactions ==> interactions[k].interactionScore >= 0)
  }

  lemma RoundPercent(x: real)
    requires 0.0 <= x <= 100.0
    ensures 0 <= JsRound(x) <= 100
  {
  }

  /** Every component is in [0, 1] and the weights add up to 1, so the rounded score is a percentage. */
  lemma ScoreOfBounded(u: CricketProfile, p: CricketProfile, interactions: map<UserId, Affinity>,
                       sqrt: real -> real)
    requires IsSqrt(sqrt) && Kept(u, p) && ValidProfile(u) && ValidProfile(p)
    requires forall k :: k in interactions ==> interactions[k].interactionScore >= 0
    ensures var m := ScoreOf(u, p, interactions, sqrt);
      && 0.0 <= m.details.featureSimilarity <= 1.0
      && 0.5 <= m.details.complementary <= 1.0
      && 0.1 <= m.details.skillBalance <= 1.0
      && 0.0 <= m.details.availability <= 1.0
      && 5.0 / 6.0 <= m.details.preferenceMatch <= 1.0
      && 0.0 <= m.details.interactions <= 1.0
      && 0 <= m.similarityScore <= 100
  {
    SimilarityBounded(u, p, sqrt);
    SkillBalanceFacts(u, p);
    AvailabilityFacts(u, p);
    PreferenceScoreOfSurvivor(u, p);
    var m := ScoreOf(u, p, interactions, sqrt);
    RoundPercent(Weighted(m.details));
  }

  /** findBestMatches: score every kept candidate, then sort by descending score. */
  method FindBestMatches(userProfile: CricketProfile, allProfiles: seq<CricketProfile>,
                         userInteractions: map<UserId, Affinity>, sqrt: real -> real)
    returns (result: seq<MatchScore>)
    requires IsSqrt(sqrt)
    ensures result == BestMatches(userProfile, allProfiles, userInteractions, sqrt)
    ensures SortedDesc(result, ScoreKey) && |result| <= |allProfiles|
    ensures forall m :: m in result ==>
      m.profile in allProfiles && m.profile.user != userProfile.user && Meets(userProfile, m.profile)
    ensures forall p :: p in allProfiles && Kept(userProfile, p) ==> exists m :: m in result && m.profile == p
    ensures WellFormed(userProfile, allProfiles, userInteractions) ==>
      forall m :: m in result ==> 0 <= m.similarityScore <= 100
  {
    var userFeatureVector := FeatureVector(userProfile);
    var matchScores: seq<MatchScore> := [];
    var i := 0;
    while i < |allProfiles|
      invariant 0 <= i <= |allProfiles|
      invariant matchScores == Scored(userProfile, allProfiles[..i], userInteractions, sqrt)
    {
      var profile := allProfiles[i];
      assert allProfiles[..i + 1][..i] == allProfiles[..i];
      if Kept(userProfile, profile) {
        var similarity := CosineSimilarity(userFeatureVector, FeatureVector(profile), sqrt);
        var details := Details(similarity.value,
                               ComplementaryComponent(userProfile, profile),
                               SkillBalance(userProfile, profile),
                               AvailabilityScore(userProfile, profile),
                               PreferenceScore(userProfile, profile),
                               InteractionComponent(userInteractions, profile));
        matchScores := matchScores + [MatchScore(profile, JsRound(Weighted(details)), details)];
      }
      i := i + 1;
    }
    assert allProfiles[..i] == allProfiles;
    result := SortDesc(matchScores, ScoreKey);
    MatchesFacts(userProfile, allProfiles, userInteractions, sqrt);
  }

  /** Each scored entry is the score of a kept input profile. */
  lemma ScoredEntry(u: CricketProfile, ps: seq<CricketProfile>, interactions: map<UserId, Affinity>,
                    sqrt: real -> real, m: MatchScore)
    requires IsSqrt(sqrt) && m in Scored(u, ps, interactions, sqrt)
    ensures exists p :: p in ps && Kept(u, p) && m == ScoreOf(u, p, interactions, sqrt)
  {
    var s := Scored(u, ps, interactions, sqrt);
    var kept := KeptProfiles(u, ps);
    ScoredProfiles(u, ps, interactions, sqrt);
    var i :| 0 <= i < |s| && s[i] == m;
    assert kept[i] in kept;
  }

  /** Every kept input profile has a scored entry. */
  lemma ScoredCovers(u: CricketProfile, ps: seq<CricketProfile>, interactions: map<UserId, Affinity>,
                     sqrt: real -> real, p: CricketProfile)
    requires IsSqrt(sqrt) && p in ps && Kept(u, p)
    ensures ScoreOf(u, p, interactions, sqrt) in Scored(u, ps, interactions, sqrt)
  {
    var s := Scored(u, ps, interactions, sqrt);
    var kept := KeptProfiles(u, ps);
    ScoredProfiles(u, ps, interactions, sqrt);
    var i :| 0 <= i < |kept| && kept[i] == p;
    assert s[i] == ScoreOf(u, p, interactions, sqrt);
  }

  /** The properties FindBestMatches promises, proved about the ranking itself. */
  lemma MatchesFacts(u: CricketProfile, ps: seq<CricketProfile>, interactions: map<UserId, Affinity>,
                     sqrt: real -> real)
    requires IsSqrt(sqrt)
    ensures var r := BestMatches(u, ps, interactions, sqrt);
      && SortedDesc(r, ScoreKey) && |r| <= |ps|
      && (forall m :: m in r ==> m.profile in ps && Kept(u, m.profile))
      && (forall p :: p in ps && Kept(u, p) ==> exists m :: m in r && m.profile == p)
      && (WellFormed(u, ps, interactions) ==> forall m :: m in r ==> 0 <= m.similarityScore <= 100)
  {
    var s := Scored(u, ps, interactions, sqrt);
    var r := BestMatches(u, ps, interactions, sqrt);
    ScoredProfiles(u, ps, interactions, sqrt);
    SortDescCorrect(s, ScoreKey);
    forall m | m in r ensures m.profile in ps && Kept(u, m.profile)
    {
      SortDescMembers(s, ScoreKey, m);
      ScoredEntry(u, ps, interactions, sqrt, m);
    }
    forall p | p in ps && Kept(u, p) ensures exists m :: m in r && m.profile == p
    {
      ScoredCovers(u, ps, interactions, sqrt, p);
      var m := ScoreOf(u, p, interactions, sqrt);
      SortDescMembers(s, ScoreKey, m);
      assert m in r;
    }
    if WellFormed(u, ps, interactions) {
      forall m | m in r ensures 0 <= m.similarityScore <= 100
      {
        SortDescMembers(s, ScoreKey, m);
        ScoredEntry(u, ps, interactions, sqrt, m);
        var p :| p in ps && Kept(u, p) && m == ScoreOf(u, p, interactions, sqrt);
        ScoreOfBounded(u, p, interactions, sqrt);
      }
    }
  }

  /** Candidates with equal scores keep their input order. */
  lemma MatchesStable(u: CricketProfile, ps: seq<CricketProfile>, interactions: map<UserId, Affinity>,
                      sqrt: real -> real, score: int)
    requires IsSqrt(sqrt)
    ensures WithKey(BestMatches(u, ps, interactions, sqrt), ScoreKey, score)
         == WithKey(Scored(u, ps, interactions, sqrt), ScoreKey, score)
  {
    SortDescStable(Scored(u, ps, interactions, sqrt), ScoreKey, score);
  }
}
