/**
 * Clubs and club posts (server/controllers/communityController.js, with the
 * schemas server/models/clubModel.js and server/models/Post.js). The two
 * collections are maps from ids to documents held in one store.
 *
 * The club and post handlers set a 400/403/404 status and then throw
 * inside their own `try`, whose `catch` answers 500. The store reports
 * what the handlers answer (`ReportedAsWritten`); `Reported` is the
 * reporting that keeps the status a guard sets.
 */
module Community {
  import opened Common

  type ClubId = nat
  type PostId = nat

  const MissingFields: string := "Please provide all required fields"
  const PostTypes: seq<string> := ["discussion", "announcement", "event", "tip", "video"]
  const DefaultPostType: string := "discussion"

  datatype Club = Club(
    name: string, description: string, sport: string, location: string,
    creator: UserId, members: seq<UserId>, admins: seq<UserId>)

  datatype Comment = Comment(user: UserId, content: string, createdAt: int)

  datatype Post = Post(
    title: string, content: string, author: UserId, postType: string, media: string,
    club: ClubId, likes: seq<UserId>, comments: seq<Comment>)

  /** The outcome of a handler's guards: all passed, or the status and message it sets before throwing. */
  datatype Check = Pass | Fail(status: int, message: string)

  /** What the client receives as written: the catch block turns every failed guard into 500. */
  function ReportedAsWritten(c: Check, success: int): int
  {
    if c.Pass? then success else 500
  }

  /** What the client receives when the status a guard sets is kept. */
  function Reported(c: Check, success: int): (status: int)
    ensures c.Pass? ==> status == success
    ensures c.Fail? ==> status == c.status
  {
    if c.Pass? then success else c.status
  }

  /** A required request field: present (non-empty), or the 400 its guard sets. */
  function Required(present: bool, message: string): (c: Check)
    ensures c.Pass? <==> present
    ensures c.Fail? ==> c == Fail(400, message)
  {
    if present then Pass else Fail(400, message)
  }

  function CreateClubCheck(name: string, description: string, sport: string, location: string): (c: Check)
    ensures c.Pass? <==> name != "" && description != "" && sport != "" && location != ""
    ensures c.Fail? ==> c.status == 400
  {
    if name == "" || description == "" || sport == "" || location == "" then
      Fail(400, MissingFields)
    else Pass
  }

  function JoinClubCheck(club: Option<Club>, caller: UserId): (c: Check)
    ensures club.None? ==> c == Fail(404, "Club not found")
    ensures club.Some? && caller in club.value.members ==> c == Fail(400, "Already a member of this club")
    ensures c.Pass? <==> club.Some? && caller !in club.value.members
  {
    if club.None? then Fail(404, "Club not found")
    else if caller in club.value.members then Fail(400, "Already a member of this club")
    else Pass
  }

  /** The guards createPost and getPosts share: the club must exist and the caller must belong to it. */
  function MemberCheck(club: Option<Club>, caller: UserId, forbidden: string): (c: Check)
    ensures c.Pass? <==> club.Some? && caller in club.value.members
    ensures club.None? ==> c.Fail? && c.status == 404
    ensures club.Some? && caller !in club.value.members ==> c.Fail? && c.status == 403
  {
    if club.None? then Fail(404, "Club not found")
    else if caller !in club.value.members then Fail(403, forbidden)
    else Pass
  }

  /**
   * As written, every failed guard of the club and post handlers reaches
   * the client as 500: for instance joining a club twice, which sets 400,
   * is reported as a server error. The corrected reporting keeps the 4xx
   * status.
   */
  lemma GuardStatusLost(c: Check, success: int, club: Club, caller: UserId)
    requires c.Fail? && 400 <= c.status < 500
    requires caller in club.members
    ensures ReportedAsWritten(c, success) == 500 != Reported(c, success)
    ensures ReportedAsWritten(JoinClubCheck(Some(club), caller), 200) == 500
    ensures Reported(JoinClubCheck(Some(club), caller), 200) == 400
  {
  }

  /** The post type stored: the submitted one, or 'discussion' when none is given. */
  function PostType(submitted: string): (t: string)
    ensures submitted == "" ==> t == DefaultPostType
    ensures submitted != "" ==> t == submitted
  {
    if submitted != "" then submitted else DefaultPostType
  }

  /** The filter getClubs builds: a sport condition and a name/description search, each only when given (non-empty). */
  datatype ClubQuery = ClubQuery(sport: Option<string>, search: Option<string>)

  function ClubQueryOf(sport: string, search: string): (q: ClubQuery)
    ensures q.sport.Some? <==> sport != ""
    ensures q.search.Some? <==> search != ""
    ensures q.sport.Some? ==> q.sport.value == sport
    ensures q.search.Some? ==> q.search.value == search
  {
    ClubQuery(if sport != "" then Some(sport) else None, if search != "" then Some(search) else None)
  }

  /**
   * Whether a club satisfies a getClubs filter; `matches` is the compiled
   * search pattern (case-insensitive), tried on the name and the description.
   */
  predicate ClubSelected(q: ClubQuery, matches: string -> bool, c: Club)
  {
    && (q.sport.None? || c.sport == q.sport.value)
    && (q.search.None? || matches(c.name) || matches(c.description))
  }

  /** An empty `sport` or `search` parameter imposes no condition; a given one restricts by equality or by the pattern. */
  lemma ClubQuerySelects(sport: string, search: string, matches: string -> bool, c: Club)
    ensures ClubSelected(ClubQueryOf(sport, search), matches, c) <==>
      && (sport == "" || c.sport == sport)
      && (search == "" || matches(c.name) || matches(c.description))
  {
  }

  /** A post as the schema accepts it: a title left non-empty by trimming and a type from the list. */
  predicate SchemaValidPost(title: string, postType: string)
  {
    Trim(title) != "" && postType in PostTypes
  }

  /** Every post's likes hold each user at most once, and every post has a non-empty title and a schema type. */
  predicate ValidPosts(posts: map<PostId, Post>)
  {
    forall id :: id in posts ==>
      NoDuplicates(posts[id].likes) && posts[id].title != "" && posts[id].postType in PostTypes
  }

  /** Every club lists each member once. */
  predicate ValidClubs(clubs: map<ClubId, Club>)
  {
    forall id :: id in clubs ==> NoDuplicates(clubs[id].members)
  }

  class CommunityStore {
    var clubs: map<ClubId, Club>
    var posts: map<PostId, Post>
    var nextClubId: ClubId
    var nextPostId: PostId

    ghost predicate Valid()
      reads this
    {
      && ValidClubs(clubs) && ValidPosts(posts)
      && (forall id :: id in clubs ==> id < nextClubId)
      && (forall id :: id in posts ==> id < nextPostId)
    }

    constructor ()
      ensures Valid() && clubs == map[] && posts == map[]
    {
      clubs := map[];
      posts := map[];
      nextClubId := 0;
      nextPostId := 0;
    }

    /** createClub: the creator becomes the only member and the only admin; a missing field is answered 500. */
    method CreateClub(caller: UserId, name: string, description: string, sport: string, location: string)
      returns (status: int, id: Option<ClubId>)
      requires Valid()
      modifies this
      ensures Valid() && posts == old(posts) && nextPostId == old(nextPostId)
      ensures status == ReportedAsWritten(CreateClubCheck(name, description, sport, location), 201)
      ensures status == 201 ==>
        && id == Some(old(nextClubId)) && old(nextClubId) !in old(clubs)
        && clubs == old(clubs)[old(nextClubId) := Club(name, description, sport, location, caller, [caller], [caller])]
      ensures status != 201 ==> id == None && clubs == old(clubs)
    {
      var check := CreateClubCheck(name, description, sport, location);
      if check.Fail? {
        return ReportedAsWritten(check, 201), None;
      }
      clubs := clubs[nextClubId := Club(name, description, sport, location, caller, [caller], [caller])];
      id := Some(nextClubId);
      nextClubId := nextClubId + 1;
      status := 201;
    }

    /** joinClub: append the caller to the members of an existing club they are not yet in; a failed guard is answered 500. */
    method JoinClub(caller: UserId, id: ClubId) returns (status: int)
      requires Valid()
      modifies this
      ensures Valid() && posts == old(posts) && nextClubId == old(nextClubId) && nextPostId == old(nextPostId)
      ensures var check := JoinClubCheck(if id in old(clubs) then Some(old(clubs)[id]) else None, caller);
        && status == ReportedAsWritten(check, 200)
        && (check.Pass? ==> clubs == old(clubs)[id := old(clubs)[id].(members := old(clubs)[id].members + [caller])])
        && (check.Fail? ==> clubs == old(clubs))
    {
      var club := if id in clubs then Some(clubs[id]) else None;
      var check := JoinClubCheck(club, caller);
      if check.Fail? {
        return ReportedAsWritten(check, 200);
      }
      var c := club.value;
      clubs := clubs[id := c.(members := c.members + [caller])];
      status := 200;
    }

    /**
     * createPost: title, content and club id are required, the club must
     * exist and include the caller; the type defaults to 'discussion'. The
     * schema trims the title, so a title of white space alone fails
     * validation, as does a type outside the schema's list. Every failure,
     * the guards' 400/403/404 included, is answered 500.
     */
    method CreatePost(caller: UserId, title: string, content: string, postType: string, media: string,
                      clubId: Option<ClubId>)
      returns (status: int, id: Option<PostId>)
      requires Valid()
      modifies this
      ensures Valid() && clubs == old(clubs) && nextClubId == old(nextClubId)
      ensures var fields := Required(title != "" && content != "" && clubId.Some?, MissingFields);
        fields.Fail? ==> status == ReportedAsWritten(fields, 201) && posts == old(posts)
      ensures title != "" && content != "" && clubId.Some? ==>
        var check := MemberCheck(if clubId.value in clubs then Some(clubs[clubId.value]) else None, caller,
                                 "You must be a member of the club to create posts");
        && (check.Fail? ==> status == ReportedAsWritten(check, 201) && posts == old(posts))
        && (check.Pass? && !SchemaValidPost(title, PostType(postType)) ==> status == 500 && posts == old(posts))
        && (check.Pass? && SchemaValidPost(title, PostType(postType)) ==>
              && status == 201 && id == Some(old(nextPostId)) && old(nextPostId) !in old(posts)
              && posts == old(posts)[old(nextPostId) :=
                   Post(Trim(title), content, caller, PostType(postType), media, clubId.value, [], [])])
      ensures status == 201 || status == 500
      ensures status != 201 ==> id == None
    {
      var fields := Required(title != "" && content != "" && clubId.Some?, MissingFields);
      if fields.Fail? {
        return ReportedAsWritten(fields, 201), None;
      }
      var club := if clubId.value in clubs then Some(clubs[clubId.value]) else None;
      var check := MemberCheck(club, caller, "You must be a member of the club to create posts");
      if check.Fail? {
        return ReportedAsWritten(check, 201), None;
      }
      var t := PostType(postType);
      if !SchemaValidPost(title, t) {
        return 500, None;
      }
      var post := Post(Trim(title), content, caller, t, media, clubId.value, [], []);
      posts := posts[nextPostId := post];
      id := Some(nextPostId);
      nextPostId := nextPostId + 1;
      status := 201;
    }

    /** getPosts: the posts of a club, for its members only; a missing club id and a failed guard are answered 500. */
    method GetPosts(caller: UserId, clubId: Option<ClubId>) returns (status: int, result: set<PostId>)
      ensures clubId.None? ==> status == ReportedAsWritten(Required(false, "Club ID is required"), 200) && result == {}
      ensures clubId.Some? ==>
        var check := MemberCheck(if clubId.value in clubs then Some(clubs[clubId.value]) else None, caller,
                                 "You must be a member of the club to view posts");
        && status == ReportedAsWritten(check, 200)
        && (check.Pass? ==> forall p :: p in result <==> p in posts && posts[p].club == clubId.value)
        && (check.Fail? ==> result == {})
      ensures status == 200 || status == 500
    {
      var required := Required(clubId.Some?, "Club ID is required");
      if required.Fail? {
        return ReportedAsWritten(required, 200), {};
      }
      var club := if clubId.value in clubs then Some(clubs[clubId.value]) else None;
      var check := MemberCheck(club, caller, "You must be a member of the club to view posts");
      if check.Fail? {
        return ReportedAsWritten(check, 200), {};
      }
      result := set p | p in posts && posts[p].club == clubId.value;
      status := 200;
    }

    /**
     * getClubs: the clubs meeting the sport and search conditions present
     * in the query. The search is compiled as a case-insensitive pattern by
     * `compile`; a pattern it rejects (None) makes the query fail with 500.
     */
    method GetClubs(sport: string, search: string, compile: string -> Option<string -> bool>)
      returns (status: int, result: set<ClubId>)
      ensures search != "" && compile(search).None? ==> status == 500 && result == {}
      ensures search == "" || compile(search).Some? ==>
        && status == 200
        && forall id :: id in result <==>
             && id in clubs
             && (sport == "" || clubs[id].sport == sport)
             && (search == "" || compile(search).value(clubs[id].name) || compile(search).value(clubs[id].description))
    {
      var query := ClubQueryOf(sport, search);
      var matches := (t: string) => false;
      if query.search.Some? {
        var compiled := compile(query.search.value);
        if compiled.None? {
          return 500, {};
        }
        matches := compiled.value;
      }
      forall id | id in clubs {
        ClubQuerySelects(sport, search, matches, clubs[id]);
      }
      result := set id | id in clubs && ClubSelected(query, matches, clubs[id]);
      status := 200;
    }

    /** likePost: toggle the caller's like. */
    method LikePost(caller: UserId, postId: PostId) returns (status: int)
      requires Valid()
      modifies this
      ensures Valid() && clubs == old(clubs) && nextClubId == old(nextClubId) && nextPostId == old(nextPostId)
      ensures postId !in old(posts) ==> status == 404 && posts == old(posts)
      ensures postId in old(posts) ==>
        && status == 200
        && posts == old(posts)[postId := old(posts)[postId].(likes := Toggle(old(posts)[postId].likes, caller))]
        && (caller in posts[postId].likes <==> caller !in old(posts)[postId].likes)
    {
      if postId !in posts {
        return 404;
      }
      var post := posts[postId];
      ToggleFlips(post.likes, caller);
      posts := posts[postId := post.(likes := Toggle(post.likes, caller))];
      status := 200;
    }

    /** commentOnPost: append one comment; an empty comment fails schema validation with 500. */
    method CommentOnPost(caller: UserId, postId: PostId, content: string, now: int) returns (status: int)
      requires Valid()
      modifies this
      ensures Valid() && clubs == old(clubs) && nextClubId == old(nextClubId) && nextPostId == old(nextPostId)
      ensures postId !in old(posts) ==> status == 404 && posts == old(posts)
      ensures postId in old(posts) && content == "" ==> status == 500 && posts == old(posts)
      ensures postId in old(posts) && content != "" ==>
        && status == 200
        && posts == old(posts)[postId := old(posts)[postId].(comments :=
             old(posts)[postId].comments + [Comment(caller, content, now)])]
    {
      if postId !in posts {
        return 404;
      }
      if content == "" {
        return 500;
      }
      var post := posts[postId];
      posts := posts[postId := post.(comments := post.comments + [Comment(caller, content, now)])];
      status := 200;
    }

    /** deletePost: only the author may delete. */
    method DeletePost(caller: UserId, postId: PostId) returns (status: int)
      requires Valid()
      modifies this
      ensures Valid() && clubs == old(clubs) && nextClubId == old(nextClubId) && nextPostId == old(nextPostId)
      ensures postId !in old(posts) ==> status == 404 && posts == old(posts)
      ensures postId in old(posts) && old(posts)[postId].author != caller ==> status == 403 && posts == old(posts)
      ensures postId in old(posts) && old(posts)[postId].author == caller ==>
        status == 200 && posts == old(posts) - {postId}
    {
      if postId !in posts {
        return 404;
      }
      if posts[postId].author != caller {
        return 403;
      }
      posts := posts - {postId};
      status := 200;
    }
  }
}
