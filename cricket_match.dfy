/**
 * Cricket matches (server/models/CricketMatch.js) and the two ways of
 * joining one: `joinMatch` in server/controllers/cricketMatchController.js,
 * which enforces capacity and flips the status to 'full', and
 * `joinCricketMatch` in server/controllers/cricketController.js, which only
 * avoids duplicates. The MongoDB collection is an in-memory table keyed by
 * match id.
 */
module CricketMatches {
  import opened Common

  const Formats: seq<string> := ["T20", "ODI", "Test", "Custom"]
  const SkillLevels: seq<string> := ["Beginner", "Intermediate", "Advanced", "Professional"]
  const Statuses: seq<string> := ["open", "full", "cancelled", "completed"]
  const MinPlayers := 1
  const MaxPlayers := 22

  type MatchId = nat

  /** A match document. `date` is the timestamp `new Date(...)` produced, None standing for an Invalid Date. */
  datatype CricketMatch = CricketMatch(
    title: string,
    date: Option<int>,
    time: string,
    location: string,
    format: string,
    playersNeeded: int,
    skill_level: string,
    description: string,
    creator: UserId,
    participants: seq<UserId>,
    status: string)

  /** What the schema accepts on save. */
  predicate ValidMatch(m: CricketMatch)
  {
    && m.title != "" && m.date.Some? && m.time != "" && m.location != ""
    && m.format in Formats
    && MinPlayers <= m.playersNeeded <= MaxPlayers
    && m.skill_level in SkillLevels
    && m.status in Statuses
  }

  /** The fields a client submits to createMatch. */
  datatype MatchRequest = MatchRequest(
    title: string, date: string, time: string, location: string, format: string,
    playersNeeded: int, skill_level: string, description: string)

  /**
   * The document createMatch builds: the submitted fields (title and
   * description trimmed by the schema), the caller as creator, the date
   * parsed from `date` and `time` joined with a 'T' (`toDate` is `new Date`,
   * None standing for an Invalid Date), no participants and the default
   * status.
   */
  function NewMatch(req: MatchRequest, caller: UserId, toDate: string -> Option<int>): (m: CricketMatch)
    ensures m.creator == caller && m.participants == [] && m.status == "open"
    ensures m.date == toDate(req.date + "T" + req.time) && m.time == req.time
    ensures m.title == Trim(req.title) && m.description == Trim(req.description)
    ensures ValidMatch(m) <==>
      && Trim(req.title) != "" && toDate(req.date + "T" + req.time).Some? && req.time != "" && req.location != ""
      && req.format in Formats && MinPlayers <= req.playersNeeded <= MaxPlayers
      && req.skill_level in SkillLevels
  {
    var title := Trim(req.title);
    var description := Trim(req.description);
    CricketMatch(title, toDate(req.date + "T" + req.time), req.time, req.location, req.format,
                 req.playersNeeded, req.skill_level, description, caller, [], "open")
  }

  datatype JoinResult = JoinResult(status: int, m: CricketMatch)

  /** joinMatch on a found match: 400 for a participant or a full match, otherwise append and maybe mark full. */
  function Join(m: CricketMatch, caller: UserId): JoinResult
  {
    if caller in m.participants then JoinResult(400, m)
    else if |m.participants| >= m.playersNeeded then JoinResult(400, m)
    else
      var ps := m.participants + [caller];
      JoinResult(200, m.(participants := ps,
                         status := if |ps| == m.playersNeeded then "full" else m.status))
  }

  /**
   * A rejected join changes nothing; a successful one appends exactly the
   * caller, keeps the participant count within playersNeeded, and sets
   * 'full' exactly when the count reaches playersNeeded. The current status
   * is never consulted: a cancelled or completed match with room accepts
   * the join.
   */
  lemma JoinFacts(m: CricketMatch, caller: UserId)
    ensures var r := Join(m, caller);
      && (r.status == 200 <==> caller !in m.participants && |m.participants| < m.playersNeeded)
      && (r.status != 200 ==> r.status == 400 && r.m == m)
      && (r.status == 200 ==>
            && r.m.participants == m.participants + [caller]
            && |r.m.participants| <= m.playersNeeded
            && (r.m.status == "full" <==> |r.m.participants| == m.playersNeeded || m.status == "full")
            && (|r.m.participants| != m.playersNeeded ==> r.m.status == m.status)
            && r.m == m.(participants := r.m.participants, status := r.m.status))
  {
  }

  /** Joining keeps the schema valid, keeps participants free of duplicates, and never overfills a match. */
  lemma JoinPreserves(m: CricketMatch, caller: UserId)
    requires ValidMatch(m) && NoDuplicates(m.participants)
    ensures ValidMatch(Join(m, caller).m) && NoDuplicates(Join(m, caller).m.participants)
    ensures |m.participants| <= m.playersNeeded ==> |Join(m, caller).m.participants| <= m.playersNeeded
  {
    if Join(m, caller).status == 200 {
      assert "full" in Statuses;
    }
  }

  /** A second join by the same user is always refused. */
  lemma JoinTwiceRejected(m: CricketMatch, caller: UserId)
    ensures Join(Join(m, caller).m, caller).status == 400
  {
  }

  /** The response of joinCricketMatch and the document it wrote back, if any. */
  datatype Outcome = Outcome(status: int, saved: Option<CricketMatch>)

  /**
   * joinCricketMatch as written. The lookup populates `organizer`, which is
   * not a path of the schema. An unknown id finds no document, so there is
   * nothing to populate and the reply is 404. For an existing match, if the
   * ODM rejects an unknown populate path (`populateRejects`), the lookup
   * fails and nothing is saved; otherwise the participant is saved, and
   * reading `match.organizer.name` afterwards throws. Either way the handler
   * answers 500.
   */
  function JoinCricketMatchAsWritten(found: Option<CricketMatch>, caller: UserId, populateRejects: bool): Outcome
  {
    if found.None? then Outcome(404, None)
    else if populateRejects then Outcome(500, None)
    else
      var m := found.value;
      if caller !in m.participants then Outcome(500, Some(m.(participants := m.participants + [caller])))
      else Outcome(500, None)
  }

  /** The handler as written never reports success: every existing match ends in 500. */
  lemma JoinCricketMatchAlwaysFails(found: Option<CricketMatch>, caller: UserId, populateRejects: bool)
    ensures JoinCricketMatchAsWritten(found, caller, populateRejects).status != 200
    ensures found.None? ==> JoinCricketMatchAsWritten(found, caller, populateRejects).status == 404
    ensures found.Some? ==> JoinCricketMatchAsWritten(found, caller, populateRejects).status == 500
  {
  }

  /** joinCricketMatch as intended: 404 for an unknown match, otherwise add the caller once and answer 200. */
  function JoinCricketMatchOutcome(found: Option<CricketMatch>, caller: UserId): (r: Outcome)
    ensures found.None? <==> r.status == 404
    ensures r.status != 404 ==> r.status == 200
  {
    if found.None? then Outcome(404, None)
    else
      var m := found.value;
      Outcome(200, Some(m.(participants := AddToSet(m.participants, caller))))
  }

  /**
   * The intended handler is idempotent, puts the caller among the
   * participants, and, unlike joinMatch, neither checks capacity nor
   * touches the status: joining a match that is already full overfills it.
   */
  lemma JoinCricketMatchFacts(m: CricketMatch, caller: UserId)
    ensures var r := JoinCricketMatchOutcome(Some(m), caller);
      && r.saved.Some? && caller in r.saved.value.participants
      && r.saved.value.status == m.status
      && JoinCricketMatchOutcome(r.saved, caller) == r
      && (caller !in m.participants ==> |r.saved.value.participants| == |m.participants| + 1)
  {
  }

  /** A full match that a new user joins through joinCricketMatch ends up with more participants than playersNeeded. */
  lemma JoinCricketMatchOverfills(m: CricketMatch, caller: UserId)
    requires |m.participants| >= m.playersNeeded && caller !in m.participants
    ensures |JoinCricketMatchOutcome(Some(m), caller).saved.value.participants| > m.playersNeeded
    ensures Join(m, caller).status == 400
  {
  }

  /** The matches collection. Ids are handed out from a counter, standing in for fresh ObjectIds. */
  class MatchTable {
    var matches: map<MatchId, CricketMatch>
    var nextId: MatchId

    /** Every stored match passes schema validation, has no duplicate participants, and has an id below the counter. */
    ghost predicate Valid()
      reads this
    {
      forall id :: id in matches ==> id < nextId && ValidMatch(matches[id]) && NoDuplicates(matches[id].participants)
    }

    constructor ()
      ensures Valid() && matches == map[]
    {
      matches := map[];
      nextId := 0;
    }

    /** createMatch: store the new document with 201, or answer 500 when validation fails. */
    method CreateMatch(req: MatchRequest, caller: UserId, toDate: string -> Option<int>) returns (status: int, id: Option<MatchId>)
      requires Valid()
      modifies this
      ensures Valid()
      ensures ValidMatch(NewMatch(req, caller, toDate)) ==>
        && status == 201 && id == Some(old(nextId)) && old(nextId) !in old(matches)
        && matches == old(matches)[old(nextId) := NewMatch(req, caller, toDate)]
      ensures !ValidMatch(NewMatch(req, caller, toDate)) ==> status == 500 && id == None && matches == old(matches)
    {
      var m := NewMatch(req, caller, toDate);
      if ValidMatch(m) {
        matches := matches[nextId := m];
        id := Some(nextId);
        nextId := nextId + 1;
        status := 201;
      } else {
        status := 500;
        id := None;
      }
    }

    /** joinMatch: 404 for an unknown id, otherwise `Join`, saving the match on success. */
    method JoinMatch(id: MatchId, caller: UserId) returns (status: int)
      requires Valid()
      modifies this
      ensures Valid() && nextId == old(nextId)
      ensures id !in old(matches) ==> status == 404 && matches == old(matches)
      ensures id in old(matches) ==>
        && status == Join(old(matches)[id], caller).status
        && matches == old(matches)[id := Join(old(matches)[id], caller).m]
    {
      if id !in matches {
        return 404;
      }
      var found := matches[id];
      JoinPreserves(found, caller);
      var r := Join(found, caller);
      status := r.status;
      if status == 200 {
        matches := matches[id := r.m];
      }
    }

    /** joinCricketMatch with the intended behaviour. */
    method JoinCricketMatch(id: MatchId, caller: UserId) returns (status: int)
      requires Valid()
      modifies this
      ensures Valid() && nextId == old(nextId)
      ensures id !in old(matches) ==> status == 404 && matches == old(matches)
      ensures id in old(matches) ==>
        && status == 200
        && matches == old(matches)[id := old(matches)[id].(participants := AddToSet(old(matches)[id].participants, caller))]
    {
      var found := if id in matches then Some(matches[id]) else None;
      var r := JoinCricketMatchOutcome(found, caller);
      status := r.status;
      if r.saved.Some? {
        var m := r.saved.value;
        matches := matches[id := m];
      }
    }
  }
}
