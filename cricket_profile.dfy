/**
 * The cricket profile record (server/models/CricketProfile.js): its
 * enumerations, numeric ranges and defaults. Enumerated fields keep the
 * string labels the application stores; `ValidProfile` is what Mongoose's
 * schema validation accepts on save.
 */
module CricketProfiles {
  import opened Common

  const BattingStyles: seq<string> := ["Right-handed", "Left-handed"]
  const BowlingStyles: seq<string> := ["Fast", "Medium", "Spin"]
  const Positions: seq<string> := ["Batsman", "Bowler", "All-rounder", "Wicket-keeper"]
  const Times: seq<string> := ["Morning", "Afternoon", "Evening"]
  /** The wildcard a preference list may hold. */
  const AnyChoice: string := "Any"

  const MinSkill: real := 1.0
  const MaxSkill: real := 10.0

  datatype Availability = Availability(weekdays: bool, weekends: bool, preferredTime: string)

  datatype Location = Location(coordinates: seq<real>, address: string)

  datatype PreferredAvailability =
    PreferredAvailability(weekdays: bool, weekends: bool, preferredTime: seq<string>)

  datatype PartnerPreferences = PartnerPreferences(
    minBattingSkill: real, maxBattingSkill: real,
    minBowlingSkill: real, maxBowlingSkill: real,
    preferredBattingStyles: seq<string>,
    preferredBowlingStyles: seq<string>,
    preferredPositions: seq<string>,
    preferredAvailability: PreferredAvailability,
    complementarySkills: bool,
    maxDistance: real)

  datatype CricketProfile = CricketProfile(
    user: UserId,
    battingSkill: real, bowlingSkill: real, fieldingSkill: real,
    battingStyle: string, bowlingStyle: string,
    preferredPosition: Option<string>,
    location: Location,
    availability: Availability,
    partnerPreferences: Option<PartnerPreferences>)

  predicate InSkillRange(x: real)
  {
    MinSkill <= x <= MaxSkill
  }

  /** Every entry of a preference list is an enumeration value or the wildcard. */
  predicate ChoicesFrom(choices: seq<string>, values: seq<string>)
  {
    forall c :: c in choices ==> c in values || c == AnyChoice
  }

  predicate ValidAvailability(a: Availability)
  {
    a.preferredTime in Times
  }

  predicate ValidPreferences(p: PartnerPreferences)
  {
    && InSkillRange(p.minBattingSkill) && InSkillRange(p.maxBattingSkill)
    && InSkillRange(p.minBowlingSkill) && InSkillRange(p.maxBowlingSkill)
    && ChoicesFrom(p.preferredBattingStyles, BattingStyles)
    && ChoicesFrom(p.preferredBowlingStyles, BowlingStyles)
    && ChoicesFrom(p.preferredPositions, Positions)
    && ChoicesFrom(p.preferredAvailability.preferredTime, Times)
    && 1.0 <= p.maxDistance <= 100.0
  }

  /** What the schema accepts. Note that nothing demands min <= max in a preference range. */
  predicate ValidProfile(p: CricketProfile)
  {
    && InSkillRange(p.battingSkill) && InSkillRange(p.bowlingSkill) && InSkillRange(p.fieldingSkill)
    && p.battingStyle in BattingStyles
    && p.bowlingStyle in BowlingStyles
    && (p.preferredPosition.Some? ==> p.preferredPosition.value in Positions)
    && ValidAvailability(p.availability)
    && (p.partnerPreferences.Some? ==> ValidPreferences(p.partnerPreferences.value))
  }

  /** Schema defaults for `availability`. */
  function DefaultAvailability(): (a: Availability)
    ensures ValidAvailability(a) && !a.weekdays && a.weekends
  {
    Availability(false, true, "Evening")
  }

  /** Schema defaults for `partnerPreferences`: the widest ranges and wildcard lists, but both day kinds required. */
  function DefaultPreferences(): (p: PartnerPreferences)
    ensures ValidPreferences(p)
    ensures p.minBattingSkill == MinSkill && p.maxBattingSkill == MaxSkill
    ensures p.minBowlingSkill == MinSkill && p.maxBowlingSkill == MaxSkill
    ensures AnyChoice in p.preferredBattingStyles && AnyChoice in p.preferredBowlingStyles
    ensures AnyChoice in p.preferredPositions && AnyChoice in p.preferredAvailability.preferredTime
    ensures p.preferredAvailability.weekdays && p.preferredAvailability.weekends
    ensures p.complementarySkills && p.maxDistance == 20.0
  {
    PartnerPreferences(
      1.0, 10.0, 1.0, 10.0,
      [AnyChoice], [AnyChoice], [AnyChoice],
      PreferredAvailability(true, true, [AnyChoice]),
      true, 20.0)
  }

  /** Mean of the three skills, on the 1..10 scale for a valid profile. */
  function SkillAverage(p: CricketProfile): (avg: real)
    ensures ValidProfile(p) ==> MinSkill <= avg <= MaxSkill
  {
    (p.battingSkill + p.bowlingSkill + p.fieldingSkill) / 3.0
  }
}
