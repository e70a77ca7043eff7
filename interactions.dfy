/**
 * User interactions (server/models/UserInteraction.js) and the interaction
 * controller (server/controllers/interactionController.js): the
 * find-or-increment store update, the weighted per-partner affinity map the
 * recommender consumes, and the nested interaction matrix.
 *
 * The MongoDB collection is a sequence of records held by `InteractionStore`;
 * `Date.now()` is the parameter `now` (milliseconds).
 */
module Interactions {
  import opened Common

  const InteractionTypes: seq<string> := [
    "view_profile", "send_friend_request", "accept_friend_request",
    "send_message", "view_again", "rate_match", "play_together"]

  datatype Interaction = Interaction(
    user: UserId,
    targetUser: UserId,
    interactionType: string,
    rating: Option<int>,
    count: int,
    firstInteractedAt: int,
    lastInteractedAt: int)

  /** The schema checks applied on save: the type enumeration and a rating that is null or within 1..5. */
  predicate ValidInteraction(r: Interaction)
  {
    && r.interactionType in InteractionTypes
    && (r.rating.Some? ==> 1 <= r.rating.value <= 5)
  }

  /** The unique index on (user, targetUser, interactionType). */
  predicate SameKey(r: Interaction, s: Interaction)
  {
    r.user == s.user && r.targetUser == s.targetUser && r.interactionType == s.interactionType
  }

  predicate UniqueKeys(rs: seq<Interaction>)
  {
    forall i, j :: 0 <= i < j < |rs| ==> !SameKey(rs[i], rs[j])
  }

  /** What every stored record satisfies: schema-valid and counted at least once. */
  predicate Stored(rs: seq<Interaction>)
  {
    && UniqueKeys(rs)
    && forall i :: 0 <= i < |rs| ==> ValidInteraction(rs[i]) && rs[i].count >= 1
  }

  /** `findOne({ user, targetUser, interactionType })`: the position of the record with that key, or -1. */
  function FindKey(rs: seq<Interaction>, user: UserId, target: UserId, itype: string): (i: int)
    ensures -1 <= i < |rs|
    ensures i >= 0 ==> rs[i].user == user && rs[i].targetUser == target && rs[i].interactionType == itype
    ensures i == -1 ==> forall j :: 0 <= j < |rs| ==>
      !(rs[j].user == user && rs[j].targetUser == target && rs[j].interactionType == itype)
  {
    if |rs| == 0 then -1
    else
      var last := rs[|rs| - 1];
      if last.user == user && last.targetUser == target && last.interactionType == itype then |rs| - 1
      else FindKey(rs[..|rs| - 1], user, target, itype)
  }

  /** JavaScript truthiness of the optional numeric rating. */
  predicate Truthy(rating: Option<int>)
  {
    rating.Some? && rating.value != 0
  }

  /** `rating || null`. */
  function RatingOrNull(rating: Option<int>): (r: Option<int>)
    ensures r.Some? <==> Truthy(rating)
    ensures r.Some? ==> r == rating
  {
    if Truthy(rating) then rating else None
  }

  /** HTTP status and the records after one recordInteraction request. */
  datatype RecordResult = RecordResult(status: int, records: seq<Interaction>)

  /**
   * recordInteraction. Empty strings stand for the missing (falsy) body
   * fields. A target that is not an ObjectId makes the `findOne` on the
   * `targetUser` path throw a CastError, which the catch answers with 500.
   */
  function RecordInteraction(rs: seq<Interaction>, caller: UserId, target: string, itype: string,
                             rating: Option<int>, now: int): RecordResult
  {
    if target == "" || itype == "" then RecordResult(400, rs)
    else if target == caller then RecordResult(400, rs)
    else if !IsObjectId(target) then RecordResult(500, rs)
    else
      var i := FindKey(rs, caller, target, itype);
      if i >= 0 then
        var old_ := rs[i];
        var updated := old_.(count := old_.count + 1, lastInteractedAt := now,
                             rating := if Truthy(rating) && itype == "rate_match" then rating else old_.rating);
        if ValidInteraction(updated) then RecordResult(200, rs[i := updated]) else RecordResult(500, rs)
      else
        var created := Interaction(caller, target, itype, RatingOrNull(rating), 1, now, now);
        if ValidInteraction(created) then RecordResult(200, rs + [created]) else RecordResult(500, rs)
  }

  /**
   * Requests with a missing field or aimed at the caller are refused with 400,
   * a malformed target id fails with 500, and neither touches the store.
   */
  lemma RecordRejects(rs: seq<Interaction>, caller: UserId, target: string, itype: string,
                      rating: Option<int>, now: int)
    ensures target == "" || itype == "" || target == caller <==>
      RecordInteraction(rs, caller, target, itype, rating, now).status == 400
    ensures target != "" && itype != "" && target != caller && !IsObjectId(target) ==>
      RecordInteraction(rs, caller, target, itype, rating, now) == RecordResult(500, rs)
    ensures RecordInteraction(rs, caller, target, itype, rating, now).status != 200 ==>
      RecordInteraction(rs, caller, target, itype, rating, now).records == rs
  {
  }

  /** A repeat of an existing key increments its count and refreshes its time, in place, without a second record. */
  lemma RecordRepeat(rs: seq<Interaction>, caller: UserId, target: string, itype: string,
                     rating: Option<int>, now: int, i: nat)
    requires Stored(rs) && i < |rs|
    requires rs[i].user == caller && rs[i].targetUser == target && rs[i].interactionType == itype
    requires target != caller && target != ""
    ensures var res := RecordInteraction(rs, caller, target, itype, rating, now);
      && (res.status == 200 <==>
            IsObjectId(target) && (!(Truthy(rating) && itype == "rate_match") || 1 <= rating.value <= 5))
      && (!IsObjectId(target) ==> res == RecordResult(500, rs))
      && (res.status == 200 ==>
            && |res.records| == |rs|
            && res.records[i].count == rs[i].count + 1
            && res.records[i].lastInteractedAt == now
            && res.records[i].firstInteractedAt == rs[i].firstInteractedAt
            && res.records[i].rating == (if Truthy(rating) && itype == "rate_match" then rating else rs[i].rating)
            && forall j :: 0 <= j < |rs| && j != i ==> res.records[j] == rs[j])
  {
    var k := FindKey(rs, caller, target, itype);
    assert k >= 0 && SameKey(rs[k], rs[i]);
  }

  /** A first interaction creates one record with count 1, both times set to now, and the rating or null. */
  lemma RecordFirst(rs: seq<Interaction>, caller: UserId, target: string, itype: string,
                    rating: Option<int>, now: int)
    requires target != caller && target != "" && itype != ""
    requires forall j :: 0 <= j < |rs| ==>
      !(rs[j].user == caller && rs[j].targetUser == target && rs[j].interactionType == itype)
    ensures var res := RecordInteraction(rs, caller, target, itype, rating, now);
      && (res.status == 200 <==>
            IsObjectId(target) && itype in InteractionTypes && (Truthy(rating) ==> 1 <= rating.value <= 5))
      && (!IsObjectId(target) ==> res == RecordResult(500, rs))
      && (res.status == 200 ==>
            res.records == rs + [Interaction(caller, target, itype, RatingOrNull(rating), 1, now, now)])
  {
  }

  /** The store invariant (valid records, counts at least 1, one record per key) survives every request. */
  lemma {:induction false} RecordKeepsStored(rs: seq<Interaction>, caller: UserId, target: string, itype: string,
                                           rating: Option<int>, now: int)
    requires Stored(rs)
    ensures Stored(RecordInteraction(rs, caller, target, itype, rating, now).records)
  {
    var res := RecordInteraction(rs, caller, target, itype, rating, now);
    if res.status == 200 {
      var i := FindKey(rs, caller, target, itype);
      var t := res.records;
      if i >= 0 {
        assert |t| == |rs|;
        forall a, b | 0 <= a < b < |t| ensures !SameKey(t[a], t[b]) {
          assert SameKey(t[a], t[b]) <==> SameKey(rs[a], rs[b]);
        }
      } else {
        forall a, b | 0 <= a < b < |t| ensures !SameKey(t[a], t[b]) {
          if b == |rs| {
            assert t[a] == rs[a];
          } else {
            assert t[a] == rs[a] && t[b] == rs[b];
          }
        }
      }
    }
  }

  /** The interaction store: one MongoDB collection held in memory. */
  class InteractionStore {
    var records: seq<Interaction>

    ghost predicate Valid()
      reads this
    {
      Stored(records)
    }

    constructor ()
      ensures Valid() && records == []
    {
      records := [];
    }

    /**
     * recordInteraction: validate the body, fail on a malformed target id,
     * then find-or-increment the (caller, target, type) record.
     */
    method Record(caller: UserId, target: string, itype: string, rating: Option<int>, now: int)
      returns (status: int)
      requires Valid()
      modifies this
      ensures Valid()
      ensures RecordResult(status, records) == RecordInteraction(old(records), caller, target, itype, rating, now)
      ensures target != "" && itype != "" && target != caller && !IsObjectId(target) ==>
        status == 500 && records == old(records)
    {
      RecordKeepsStored(records, caller, target, itype, rating, now);
      if target == "" || itype == "" {
        return 400;
      }
      if target == caller {
        return 400;
      }
      if !IsObjectId(target) {
        return 500;
      }
      var i := FindKey(records, caller, target, itype);
      if i >= 0 {
        var found := records[i];
        var updated := found.(count := found.count + 1, lastInteractedAt := now);
        if Truthy(rating) && itype == "rate_match" {
          updated := updated.(rating := rating);
        }
        if !ValidInteraction(updated) {
          return 500;
        }
        records := records[i := updated];
      } else {
        var created := Interaction(caller, target, itype, RatingOrNull(rating), 1, now, now);
        if !ValidInteraction(created) {
          return 500;
        }
        records := records + [created];
      }
      status := 200;
    }
  }

  // ---------------------------------------------------------------------
  // Affinity map for the recommender

  /** The weight table of getUserInteractionsForRecommendation. */
  function Weight(r: Interaction): (w: int)
    ensures r.interactionType == "rate_match" && Truthy(r.rating) ==> w == 2 * r.rating.value
    ensures r.interactionType == "rate_match" && !Truthy(r.rating) ==> w == 5
    ensures (r.interactionType !in ["view_profile", "send_message", "send_friend_request",
                                    "accept_friend_request", "play_together", "rate_match"]) ==> w == 1
    ensures ValidInteraction(r) ==> 1 <= w <= 10
  {
    match r.interactionType
    case "view_profile" => 1
    case "send_message" => 5
    case "send_friend_request" => 3
    case "accept_friend_request" => 8
    case "play_together" => 10
    case "rate_match" => if Truthy(r.rating) then r.rating.value * 2 else 5
    case _ => 1
  }

  /** JavaScript `Math.round`: round half up. */
  function JsRound(x: real): (n: int)
    ensures x - 0.5 < n as real <= x + 0.5
  {
    (x + 0.5).Floor
  }

  /** `Math.round(weight * 0.7)`: the discount for interactions the user received. */
  function Received(w: int): int
  {
    JsRound(w as real * 0.7)
  }

  /** The discount is integer arithmetic: round(0.7 w) == (7 w + 5) div 10 (floor division). */
  lemma ReceivedExact(w: int)
    ensures Received(w) == (7 * w + 5) / 10
  {
    var q := (7 * w + 5) / 10;
    var x := w as real * 0.7 + 0.5;
    assert x == (7 * w + 5) as real / 10.0;
    assert 10 * q <= 7 * w + 5 < 10 * q + 10;
    assert q as real <= x < q as real + 1.0;
  }

  /** Received weights of at least 1 stay at least 1 and never exceed the full weight. */
  lemma ReceivedBounds(w: int)
    requires w >= 1
    ensures 1 <= Received(w) <= w
  {
    ReceivedExact(w);
  }

  datatype Affinity = Affinity(totalInteractions: int, interactionScore: int)

  /** The `$or` query: records where the user is the initiator or the target. */
  function Involving(userId: UserId, rs: seq<Interaction>): (r: seq<Interaction>)
    ensures forall x :: x in r <==> x in rs && (x.user == userId || x.targetUser == userId)
  {
    if |rs| == 0 then []
    else
      var rest := Involving(userId, rs[..|rs| - 1]);
      var last := rs[|rs| - 1];
      assert rs == rs[..|rs| - 1] + [last];
      if last.user == userId || last.targetUser == userId then rest + [last] else rest
  }

  /** The partner a record is keyed under. */
  function Partner(userId: UserId, r: Interaction): UserId
  {
    if r.user == userId then r.targetUser else r.user
  }

  /** The weight of a record from the user's side: full when they initiated it, discounted when they received it. */
  function EffectiveWeight(userId: UserId, r: Interaction): int
  {
    if r.user == userId then Weight(r) else Received(Weight(r))
  }

  /** One forEach step: create the partner's entry at zero if needed, then add the count and weight x count. */
  function AddToAffinity(m: map<UserId, Affinity>, userId: UserId, r: Interaction): map<UserId, Affinity>
  {
    var k := Partner(userId, r);
    var a := if k in m then m[k] else Affinity(0, 0);
    m[k := Affinity(a.totalInteractions + r.count, a.interactionScore + EffectiveWeight(userId, r) * r.count)]
  }

  /** The map the forEach builds over `rs`, left to right. */
  function AffinityOf(userId: UserId, rs: seq<Interaction>): map<UserId, Affinity>
  {
    if |rs| == 0 then map[]
    else AddToAffinity(AffinityOf(userId, rs[..|rs| - 1]), userId, rs[|rs| - 1])
  }

  /** Reference definitions: the sums over all records keyed under partner `k`. */
  function PartnerTotal(userId: UserId, rs: seq<Interaction>, k: UserId): int
  {
    if |rs| == 0 then 0
    else
      var last := rs[|rs| - 1];
      PartnerTotal(userId, rs[..|rs| - 1], k) + (if Partner(userId, last) == k then last.count else 0)
  }

  function PartnerScore(userId: UserId, rs: seq<Interaction>, k: UserId): int
  {
    if |rs| == 0 then 0
    else
      var last := rs[|rs| - 1];
      PartnerScore(userId, rs[..|rs| - 1], k)
        + (if Partner(userId, last) == k then EffectiveWeight(userId, last) * last.count else 0)
  }

  /**
   * The map has an entry exactly for the partners of the records, and each
   * entry holds that partner's total count and total weight x count.
   */
  lemma AffinitySums(userId: UserId, rs: seq<Interaction>, k: UserId)
    ensures k in AffinityOf(userId, rs) <==> exists i :: 0 <= i < |rs| && Partner(userId, rs[i]) == k
    ensures k in AffinityOf(userId, rs) ==>
      AffinityOf(userId, rs)[k] == Affinity(PartnerTotal(userId, rs, k), PartnerScore(userId, rs, k))
  {
    AffinityKeys(userId, rs, k);
    AffinityValues(userId, rs, k);
  }

  /** The keys of the map are the partners of the records. */
  lemma {:induction false} AffinityKeys(userId: UserId, rs: seq<Interaction>, k: UserId)
    ensures k in AffinityOf(userId, rs) <==> exists i :: 0 <= i < |rs| && Partner(userId, rs[i]) == k
  {
    if |rs| > 0 {
      var n := |rs| - 1;
      var prefix := rs[..n];
      AffinityKeys(userId, prefix, k);
      AddKeys(AffinityOf(userId, prefix), userId, rs[n], k);
      if Partner(userId, rs[n]) != k {
        PartnerInPrefix(userId, rs, prefix, k);
      }
    }
  }

  lemma AddKeys(m: map<UserId, Affinity>, userId: UserId, r: Interaction, k: UserId)
    ensures k in AddToAffinity(m, userId, r) <==> k in m || Partner(userId, r) == k
  {
  }

  /** When the last record is not keyed under `k`, a record keyed under `k` is one of the others. */
  lemma PartnerInPrefix(userId: UserId, rs: seq<Interaction>, prefix: seq<Interaction>, k: UserId)
    requires |rs| > 0 && prefix == rs[..|rs| - 1] && Partner(userId, rs[|rs| - 1]) != k
    ensures (exists i :: 0 <= i < |rs| && Partner(userId, rs[i]) == k)
        <==> exists i :: 0 <= i < |prefix| && Partner(userId, prefix[i]) == k
  {
    if exists i :: 0 <= i < |rs| && Partner(userId, rs[i]) == k {
      var i :| 0 <= i < |rs| && Partner(userId, rs[i]) == k;
      assert prefix[i] == rs[i];
    }
    if exists i :: 0 <= i < |prefix| && Partner(userId, prefix[i]) == k {
      var i :| 0 <= i < |prefix| && Partner(userId, prefix[i]) == k;
      assert rs[i] == prefix[i];
    }
  }

  /** Each entry holds the partner's sums. */
  lemma {:induction false} AffinityValues(userId: UserId, rs: seq<Interaction>, k: UserId)
    ensures k in AffinityOf(userId, rs) ==>
      AffinityOf(userId, rs)[k] == Affinity(PartnerTotal(userId, rs, k), PartnerScore(userId, rs, k))
  {
    if |rs| > 0 {
      var n := |rs| - 1;
      var prefix := rs[..n];
      AffinityValues(userId, prefix, k);
      if k !in AffinityOf(userId, prefix) {
        AffinityKeys(userId, prefix, k);
        NoPartnerZero(userId, prefix, k);
      }
    }
  }

  lemma {:induction false} NoPartnerZero(userId: UserId, rs: seq<Interaction>, k: UserId)
    requires forall i :: 0 <= i < |rs| ==> Partner(userId, rs[i]) != k
    ensures PartnerTotal(userId, rs, k) == 0 && PartnerScore(userId, rs, k) == 0
  {
    if |rs| > 0 {
      NoPartnerZero(userId, rs[..|rs| - 1], k);
    }
  }

  /** Over stored records every entry is positive: at least one interaction and a score at least the count. */
  lemma {:induction false} AffinityPositive(userId: UserId, rs: seq<Interaction>)
    requires forall i :: 0 <= i < |rs| ==> ValidInteraction(rs[i]) && rs[i].count >= 1
    ensures forall k :: k in AffinityOf(userId, rs) ==>
      AffinityOf(userId, rs)[k].totalInteractions >= 1
      && AffinityOf(userId, rs)[k].interactionScore >= AffinityOf(userId, rs)[k].totalInteractions
  {
    if |rs| > 0 {
      var n := |rs| - 1;
      AffinityPositive(userId, rs[..n]);
      var r := rs[n];
      var w := EffectiveWeight(userId, r);
      assert w >= 1 by {
        if r.user != userId {
          ReceivedBounds(Weight(r));
        }
      }
      assert w * r.count >= r.count by {
        MulAtLeast(w, r.count);
      }
    }
  }

  lemma MulAtLeast(w: int, c: int)
    requires w >= 1 && c >= 1
    ensures w * c >= c
  {
    assert w * c == (w - 1) * c + c;
  }

  /** The forEach callback of getUserInteractionsForRecommendation, updating the map entry in place. */
  method AccumulateInteraction(interactionMap: map<UserId, Affinity>, userId: UserId, interaction: Interaction)
    returns (m: map<UserId, Affinity>)
    ensures m == AddToAffinity(interactionMap, userId, interaction)
  {
    m := interactionMap;
    var isUserInitiator := interaction.user == userId;
    var otherUserId := if isUserInitiator then interaction.targetUser else interaction.user;
    if otherUserId !in m {
      m := m[otherUserId := Affinity(0, 0)];
    }
    var weight := Weight(interaction);
    if !isUserInitiator {
      weight := Received(weight);
    }
    var entry := m[otherUserId];
    assert entry == if otherUserId in interactionMap then interactionMap[otherUserId] else Affinity(0, 0);
    m := m[otherUserId := Affinity(entry.totalInteractions + interaction.count,
                                   entry.interactionScore + weight * interaction.count)];
  }

  /** getUserInteractionsForRecommendation; `found` is None when the store query fails. */
  method InteractionsForRecommendation(userId: UserId, found: Option<seq<Interaction>>)
    returns (interactionMap: map<UserId, Affinity>)
    ensures found.None? ==> interactionMap == map[]
    ensures found.Some? ==> interactionMap == AffinityOf(userId, Involving(userId, found.value))
  {
    if found.None? {
      return map[];
    }
    var interactions := Involving(userId, found.value);
    interactionMap := map[];
    var i := 0;
    while i < |interactions|
      invariant 0 <= i <= |interactions|
      invariant interactionMap == AffinityOf(userId, interactions[..i])
    {
      interactionMap := AccumulateInteraction(interactionMap, userId, interactions[i]);
      assert interactions[..i + 1][..i] == interactions[..i];
      i := i + 1;
    }
    assert interactions[..i] == interactions;
  }

  // ---------------------------------------------------------------------
  // Interaction matrix

  datatype Leaf = Leaf(count: int, rating: Option<int>)

  type Matrix = map<UserId, map<UserId, map<string, Leaf>>>

  /** One forEach step of getUserInteractionMatrix: create missing levels, then set the leaf. */
  function PutLeaf(mx: Matrix, r: Interaction): Matrix
  {
    var row := if r.user in mx then mx[r.user] else map[];
    var cell := if r.targetUser in row then row[r.targetUser] else map[];
    mx[r.user := row[r.targetUser := cell[r.interactionType := Leaf(r.count, r.rating)]]]
  }

  function MatrixOf(rs: seq<Interaction>): Matrix
  {
    if |rs| == 0 then map[] else PutLeaf(MatrixOf(rs[..|rs| - 1]), rs[|rs| - 1])
  }

  predicate HasLeaf(mx: Matrix, u: UserId, t: UserId, ty: string)
  {
    u in mx && t in mx[u] && ty in mx[u][t]
  }

  /** Every leaf comes from a record with that key, and every record's key has a leaf. */
  lemma {:induction false} MatrixLeaves(rs: seq<Interaction>, u: UserId, t: UserId, ty: string)
    ensures HasLeaf(MatrixOf(rs), u, t, ty) <==>
      exists i :: 0 <= i < |rs| && rs[i].user == u && rs[i].targetUser == t && rs[i].interactionType == ty
  {
    if |rs| > 0 {
      var n := |rs| - 1;
      MatrixLeaves(rs[..n], u, t, ty);
      if exists i :: 0 <= i < n && rs[..n][i].user == u && rs[..n][i].targetUser == t && rs[..n][i].interactionType == ty {
        var i :| 0 <= i < n && rs[..n][i].user == u && rs[..n][i].targetUser == t && rs[..n][i].interactionType == ty;
        assert rs[i] == rs[..n][i];
      }
      if exists i :: 0 <= i < |rs| && rs[i].user == u && rs[i].targetUser == t && rs[i].interactionType == ty {
        var i :| 0 <= i < |rs| && rs[i].user == u && rs[i].targetUser == t && rs[i].interactionType == ty;
        if i < n {
          assert rs[..n][i] == rs[i];
        }
      }
    }
  }

  /** With one record per key (the unique index), each record's leaf holds exactly its count and rating. */
  lemma {:induction false} MatrixLeafOfRecord(rs: seq<Interaction>, i: nat)
    requires UniqueKeys(rs) && i < |rs|
    ensures HasLeaf(MatrixOf(rs), rs[i].user, rs[i].targetUser, rs[i].interactionType)
    ensures MatrixOf(rs)[rs[i].user][rs[i].targetUser][rs[i].interactionType] == Leaf(rs[i].count, rs[i].rating)
  {
    var n := |rs| - 1;
    if i < n {
      assert UniqueKeys(rs[..n]);
      MatrixLeafOfRecord(rs[..n], i);
      assert rs[..n][i] == rs[i];
      assert !SameKey(rs[i], rs[n]);
    }
  }

  /** The forEach callback of getUserInteractionMatrix: create the missing levels, then set the leaf. */
  method RecordLeaf(userMatrix: Matrix, interaction: Interaction) returns (mx: Matrix)
    ensures mx == PutLeaf(userMatrix, interaction)
  {
    var userId, targetId := interaction.user, interaction.targetUser;
    mx := userMatrix;
    if userId !in mx {
      mx := mx[userId := map[]];
    }
    if targetId !in mx[userId] {
      mx := mx[userId := mx[userId][targetId := map[]]];
    }
    var row := mx[userId];
    var cell := row[targetId];
    ghost var row0 := if userId in userMatrix then userMatrix[userId] else map[];
    ghost var cell0 := if targetId in row0 then row0[targetId] else map[];
    assert cell == cell0;
    row := row[targetId := cell[interaction.interactionType := Leaf(interaction.count, interaction.rating)]];
    assert row == row0[targetId := cell0[interaction.interactionType := Leaf(interaction.count, interaction.rating)]];
    mx := mx[userId := row];
  }

  /** getUserInteractionMatrix over all stored records. */
  method InteractionMatrix(allInteractions: seq<Interaction>) returns (userMatrix: Matrix)
    ensures userMatrix == MatrixOf(allInteractions)
  {
    userMatrix := map[];
    var i := 0;
    while i < |allInteractions|
      invariant 0 <= i <= |allInteractions|
      invariant userMatrix == MatrixOf(allInteractions[..i])
    {
      userMatrix := RecordLeaf(userMatrix, allInteractions[i]);
      assert allInteractions[..i + 1][..i] == allInteractions[..i];
      i := i + 1;
    }
    assert allInteractions[..i] == allInteractions;
  }
}
