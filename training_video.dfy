/**
 * Training videos: the URL validator and the pre-save URL normalisation of
 * server/models/TrainingVideo.js, and the handlers of
 * server/controllers/trainingVideoController.js over an in-memory
 * collection.
 *
 * The YouTube pattern `^.*(marker)([^#&?]*).*` is modelled by what a
 * backtracking matcher finds: the greedy `^.*` stops at the first line
 * terminator, so the marker used is the rightmost one starting no later
 * than that point, and the captured id is the longest run after it free of
 * '#', '&' and '?'. The WHATWG URL parser is a parameter `protocol` giving
 * the parsed protocol, or None when parsing throws.
 */
module TrainingVideos {
  import opened Common

  const Sports: seq<string> := ["cricket", "football", "tennis", "basketball", "other"]
  const Categories: seq<string> := ["technique", "strategy", "fitness", "rules", "equipment", "other"]

  /** The embed form every non-embed YouTube link is rewritten to, before the id. */
  const EmbedPrefix: string := "https://www." + "youtube-nocookie.com" + "/embed/"

  /**
   * The length of the marker alternative matching at `i` (`youtu.be/`, `v/`,
   * `u/<word char>/`, `embed/`, `watch?v=`, `&v=`, `shorts/`), or 0. The
   * alternatives start with distinct characters, so at most one matches.
   */
  function MarkerLength(s: string, i: nat): (n: nat)
    ensures n == 0 || (n >= 2 && i + n <= |s|)
  {
    if i + 9 <= |s| && s[i..i + 5] == "youtu" && !IsLineTerminator(s[i + 5]) && s[i + 6..i + 9] == "be/" then 9
    else if OccursAt(s, "v/", i) then 2
    else if i + 4 <= |s| && s[i..i + 2] == "u/" && IsWordChar(s[i + 2]) && s[i + 3] == '/' then 4
    else if OccursAt(s, "embed/", i) then 6
    else if OccursAt(s, "watch?v=", i) then 8
    else if OccursAt(s, "&v=", i) then 3
    else if OccursAt(s, "shorts/", i) then 7
    else 0
  }

  /** How far the greedy `^.*` can reach: the first line terminator, or the end. */
  function LineLimit(s: string, from: nat): (k: nat)
    requires from <= |s|
    decreases |s| - from
    ensures from <= k <= |s|
    ensures forall j :: from <= j < k ==> !IsLineTerminator(s[j])
    ensures k < |s| ==> IsLineTerminator(s[k])
  {
    if from == |s| || IsLineTerminator(s[from]) then from else LineLimit(s, from + 1)
  }

  /** The rightmost position at or below `i` where a marker starts. */
  function LastMarker(s: string, i: nat): (r: Option<nat>)
    ensures r.Some? ==> r.value <= i && MarkerLength(s, r.value) > 0
    ensures r.Some? ==> forall j :: r.value < j <= i ==> MarkerLength(s, j) == 0
    ensures r.None? ==> forall j: nat :: j <= i ==> MarkerLength(s, j) == 0
  {
    if MarkerLength(s, i) > 0 then Some(i)
    else if i == 0 then None
    else LastMarker(s, i - 1)
  }

  /** Length of the longest run from `j` without '#', '&' or '?'. */
  function IdRun(s: string, j: nat): (n: nat)
    requires j <= |s|
    decreases |s| - j
    ensures j + n <= |s|
    ensures forall k :: j <= k < j + n ==> s[k] !in "#&?"
    ensures j + n < |s| ==> s[j + n] in "#&?"
  {
    if j == |s| || s[j] in "#&?" then 0 else 1 + IdRun(s, j + 1)
  }

  /** The second capture group of the YouTube pattern, when the pattern matches. */
  function YouTubeId(s: string): (id: Option<string>)
    ensures id.Some? ==> forall k :: 0 <= k < |id.value| ==> id.value[k] !in "#&?"
  {
    match LastMarker(s, LineLimit(s, 0))
    case None => None
    case Some(i) =>
      var start := i + MarkerLength(s, i);
      Some(s[start..start + IdRun(s, start)])
  }

  /** The pattern matched and captured an id of exactly 11 characters. */
  predicate IsYouTube(s: string)
  {
    YouTubeId(s).Some? && |YouTubeId(s).value| == 11
  }

  /** The schema's url validator (the value is also required, so empty is refused). */
  predicate ValidUrl(v: string, protocol: string -> Option<string>)
  {
    v != "" && (Includes(v, "cloudinary.com") || IsYouTube(v) || protocol(v) == Some("https:"))
  }

  /** `s.replace(/^http:/, 'https:')`. */
  function UpgradeHttp(s: string): (r: string)
    ensures StartsWith(s, "http:") ==> r == "https:" + s[5..]
    ensures !StartsWith(s, "http:") ==> r == s
  {
    if StartsWith(s, "http:") then "https:" + s[5..] else s
  }

  /** The pre-save hook's rewrite of a modified url. */
  function Normalise(url: string, protocol: string -> Option<string>): string
  {
    if Includes(url, "cloudinary.com") then url
    else if IsYouTube(url) then
      if !Includes(url, "/embed/") then EmbedPrefix + YouTubeId(url).value
      else if !Includes(url, "youtube-nocookie.com") then ReplaceFirst(url, "www.youtube.com", "www.youtube-nocookie.com")
      else url
    else
      match protocol(url)
      case Some(p) => if p != "https:" then UpgradeHttp(url) else url
      case None => url
  }

  /** Cloudinary links are always accepted and never rewritten. */
  lemma CloudinaryKept(url: string, protocol: string -> Option<string>)
    requires Includes(url, "cloudinary.com")
    ensures ValidUrl(url, protocol) && Normalise(url, protocol) == url
  {
  }

  /** A YouTube link outside the embed form becomes the nocookie embed link of its id. */
  lemma YouTubeRewritten(url: string, protocol: string -> Option<string>)
    requires IsYouTube(url) && !Includes(url, "cloudinary.com") && !Includes(url, "/embed/")
    ensures ValidUrl(url, protocol)
    ensures Normalise(url, protocol) == EmbedPrefix + YouTubeId(url).value
  {
  }

  /**
   * The http-to-https upgrade never fires on a url that passed validation:
   * the validator admitted it either as Cloudinary, as YouTube, or because
   * its protocol is already 'https:'. Since validation runs before the
   * pre-save hooks, the upgrade never changes a saved url.
   */
  lemma UpgradeUnreachable(url: string, protocol: string -> Option<string>)
    requires ValidUrl(url, protocol) && !Includes(url, "cloudinary.com") && !IsYouTube(url)
    ensures Normalise(url, protocol) == url
  {
  }

  /** A marker starts with one of its alternatives' first characters ('embed/' with "em"). */
  lemma MarkerInitial(s: string, i: nat)
    requires MarkerLength(s, i) > 0
    ensures i + 1 < |s|
    ensures s[i] in "yvuw&s" || (s[i] == 'e' && s[i + 1] == 'm')
  {
    var n := MarkerLength(s, i);
    assert s[i..i + n][0] == s[i] && s[i..i + n][1] == s[i + 1];
  }

  /** When the rightmost marker search may start at `i` or above, it finds a marker at or after any marker at or below `i`. */
  lemma {:induction false} LastMarkerAtLeast(s: string, i: nat, j: nat)
    requires j <= i && MarkerLength(s, j) > 0
    ensures LastMarker(s, i).Some? && LastMarker(s, i).value >= j
  {
    if MarkerLength(s, i) == 0 {
      LastMarkerAtLeast(s, i - 1, j);
    }
  }

  /** The pieces of the canonical prefix, by position. */
  lemma PrefixPieces()
    ensures |EmbedPrefix| == 39
    ensures EmbedPrefix[32..39] == "/embed/" && EmbedPrefix[12..32] == "youtube-nocookie.com" && EmbedPrefix[..6] == "https:"
  {
    IncludesMiddleSlice("https://www.", "youtube-nocookie.com", "/embed/");
    IncludesMiddleSlice("https://www." + "youtube-nocookie.com", "/embed/", "");
    assert EmbedPrefix[..6] == EmbedPrefix[..12][..6];
  }

  predicate NoTerminator(s: string)
  {
    forall j :: 0 <= j < |s| ==> !IsLineTerminator(s[j])
  }

  lemma NoTerminatorConcat(a: string, b: string)
    requires NoTerminator(a) && NoTerminator(b)
    ensures NoTerminator(a + b)
  {
    forall j | 0 <= j < |a + b|
      ensures !IsLineTerminator((a + b)[j])
    {
      if j >= |a| {
        assert (a + b)[j] == b[j - |a|];
      }
    }
  }

  lemma SchemeNoTerminator()
    ensures NoTerminator("https://www.")
  {
    forall j | 0 <= j < |"https://www."|
      ensures !IsLineTerminator("https://www."[j])
    {
      assert "https://www."[j] in "https://www.";
    }
  }

  lemma HostNoTerminator()
    ensures NoTerminator("youtube-nocookie.com")
  {
    forall j | 0 <= j < |"youtube-nocookie.com"|
      ensures !IsLineTerminator("youtube-nocookie.com"[j])
    {
      assert "youtube-nocookie.com"[j] in "youtube-nocookie.com";
    }
  }

  lemma PathNoTerminator()
    ensures NoTerminator("/embed/")
  {
    forall j | 0 <= j < |"/embed/"|
      ensures !IsLineTerminator("/embed/"[j])
    {
      assert "/embed/"[j] in "/embed/";
    }
  }

  /** The canonical prefix holds no line terminator. */
  lemma PrefixNoTerminator()
    ensures NoTerminator(EmbedPrefix)
  {
    SchemeNoTerminator();
    HostNoTerminator();
    PathNoTerminator();
    NoTerminatorConcat("https://www.", "youtube-nocookie.com");
    NoTerminatorConcat("https://www." + "youtube-nocookie.com", "/embed/");
  }

  /** Characters of the canonical form at the positions just after its 'embed/' marker. */
  lemma EmbedPrefixChars(id: string)
    ensures var c := EmbedPrefix + id;
      && |c| == 39 + |id| && c[..39] == EmbedPrefix
      && c[32..39] == "/embed/" && c[12..32] == "youtube-nocookie.com" && c[..6] == "https:"
      && c[34] == 'm' && c[35] == 'b' && c[36] == 'e' && c[37] == 'd' && c[38] == '/'
      && (forall j :: 0 <= j < 39 ==> !IsLineTerminator(c[j]))
  {
    var c := EmbedPrefix + id;
    PrefixPieces();
    PrefixNoTerminator();
    assert c[..39] == EmbedPrefix;
    assert c[32..39] == EmbedPrefix[32..39];
    assert c[12..32] == EmbedPrefix[12..32];
    assert c[..6] == EmbedPrefix[..6];
    forall j | 0 <= j < 39
      ensures !IsLineTerminator(c[j])
    {
      assert c[j] == EmbedPrefix[j];
    }
  }

  lemma IncludesMiddleSlice(a: string, b: string, c: string)
    ensures (a + b + c)[|a|..|a| + |b|] == b && (a + b + c)[..|a|] == a
  {
  }

  /** In the canonical form the marker search lands on its own 'embed/' or further right. */
  lemma CanonicalMarker(id: string)
    ensures var c := EmbedPrefix + id;
      var m := LastMarker(c, LineLimit(c, 0));
      m.Some? && (m.value == 33 || m.value >= 39)
  {
    EmbedPrefixChars(id);
    MarkerAfterEmbed(EmbedPrefix + id);
  }

  /** A link whose first 39 characters end in 'embed/' and hold no line terminator has its last marker at that 'embed/' or beyond. */
  lemma MarkerAfterEmbed(c: string)
    requires |c| >= 39 && c[32..39] == "/embed/"
    requires c[34] == 'm' && c[35] == 'b' && c[36] == 'e' && c[37] == 'd' && c[38] == '/'
    requires forall j :: 0 <= j < 39 ==> !IsLineTerminator(c[j])
    ensures var m := LastMarker(c, LineLimit(c, 0));
      m.Some? && (m.value == 33 || m.value >= 39)
  {
    EmbedMarker(c);
    var k := LineLimit(c, 0);
    if k < 39 {
      assert false;
    }
    LastMarkerAtLeast(c, k, 33);
    var i := LastMarker(c, k).value;
    if 34 <= i < 39 {
      NoMarkerInsideEmbed(c, i);
    }
  }

  /** 'embed/' at 33 is a marker of length 6. */
  lemma EmbedMarker(c: string)
    requires |c| >= 39 && c[32..39] == "/embed/"
    ensures MarkerLength(c, 33) == 6
  {
    assert c[33..39] == c[32..39][1..] == "embed/";
    assert c[33] == c[32..39][1] == 'e';
    assert OccursAt(c, "embed/", 33);
  }

  /** No marker starts on "mbed/". */
  lemma NoMarkerInsideEmbed(c: string, i: nat)
    requires |c| >= 39 && 34 <= i < 39
    requires c[34] == 'm' && c[35] == 'b' && c[36] == 'e' && c[37] == 'd' && c[38] == '/'
    ensures MarkerLength(c, i) == 0
  {
    if MarkerLength(c, i) > 0 {
      MarkerInitial(c, i);
    }
  }

  /** The pattern recaptures the id from its canonical form, unless a marker inside the id leaves a capture of at most 9 characters. */
  lemma CanonicalCapture(id: string)
    requires |id| == 11 && forall k :: 0 <= k < |id| ==> id[k] !in "#&?"
    ensures var y := YouTubeId(EmbedPrefix + id); y.Some? && (y.value == id || |y.value| <= 9)
  {
    CanonicalMarker(id);
    EmbedTail(id);
    CaptureAfterEmbed(EmbedPrefix + id, id);
  }

  /** The canonical form ends its prefix with '/embed/' and continues with the id. */
  lemma EmbedTail(id: string)
    ensures var c := EmbedPrefix + id;
      |c| == 39 + |id| && c[32..39] == "/embed/" && c[39..] == id
  {
    PrefixPieces();
    SliceOfPrefix(EmbedPrefix, id, 32, 39);
  }

  /** When the last marker is the 'embed/' ending at 39, the capture is the rest; a later marker leaves at most 9 characters. */
  lemma CaptureAfterEmbed(c: string, id: string)
    requires |c| == 50 && c[39..] == id && c[32..39] == "/embed/"
    requires forall k :: 0 <= k < |id| ==> id[k] !in "#&?"
    requires var m := LastMarker(c, LineLimit(c, 0)); m.Some? && (m.value == 33 || m.value >= 39)
    ensures var y := YouTubeId(c); y.Some? && (y.value == id || |y.value| <= 9)
  {
    var i := LastMarker(c, LineLimit(c, 0)).value;
    if i == 33 {
      EmbedMarker(c);
      var n := IdRun(c, 39);
      if n < 11 {
        assert false;
      }
      assert c[39..50] == id;
    }
  }

  /** A link with '/embed/' and the nocookie host that does not start with 'http:' is left as it is. */
  lemma NocookieEmbedStable(url: string, protocol: string -> Option<string>)
    requires Includes(url, "/embed/") && Includes(url, "youtube-nocookie.com") && !StartsWith(url, "http:")
    ensures Normalise(url, protocol) == url
  {
  }

  /** The canonical link has '/embed/' and the nocookie host, and starts with 'https:'. */
  lemma CanonicalShape(id: string)
    ensures Includes(EmbedPrefix + id, "/embed/") && Includes(EmbedPrefix + id, "youtube-nocookie.com")
    ensures !StartsWith(EmbedPrefix + id, "http:")
  {
    PrefixPieces();
    ShapeEmbed(id);
    ShapeHost(id);
    ShapeScheme(id);
  }

  lemma ShapeEmbed(id: string)
    requires |EmbedPrefix| == 39 && EmbedPrefix[32..39] == "/embed/"
    ensures Includes(EmbedPrefix + id, "/embed/")
  {
    SliceOfPrefix(EmbedPrefix, id, 32, 39);
    IncludesAt(EmbedPrefix + id, "/embed/", 32);
  }

  lemma ShapeHost(id: string)
    requires |EmbedPrefix| == 39 && EmbedPrefix[12..32] == "youtube-nocookie.com"
    ensures Includes(EmbedPrefix + id, "youtube-nocookie.com")
  {
    SliceOfPrefix(EmbedPrefix, id, 12, 32);
    IncludesAt(EmbedPrefix + id, "youtube-nocookie.com", 12);
  }

  lemma ShapeScheme(id: string)
    requires |EmbedPrefix| == 39 && EmbedPrefix[..6] == "https:"
    ensures !StartsWith(EmbedPrefix + id, "http:")
  {
    var c := EmbedPrefix + id;
    SliceOfPrefix(EmbedPrefix, id, 0, 6);
    assert c[4] == c[..6][4] == 's';
  }

  lemma SliceOfPrefix(p: string, s: string, i: nat, j: nat)
    requires i <= j <= |p|
    ensures (p + s)[i..j] == p[i..j]
  {
  }

  /**
   * The canonical embed link is a fixed point of the normalisation, whatever
   * follows the prefix: if the pattern accepts it, the link already has
   * '/embed/' and the nocookie host; if not, it already starts with 'https:'.
   */
  lemma CanonicalStable(id: string, protocol: string -> Option<string>)
    ensures Normalise(EmbedPrefix + id, protocol) == EmbedPrefix + id
  {
    CanonicalShape(id);
    NocookieEmbedStable(EmbedPrefix + id, protocol);
  }

  /** Normalising twice is the same as normalising once, for every rewrite into the canonical form and for links already in it. */
  lemma NormaliseIdempotentYouTube(url: string, protocol: string -> Option<string>)
    requires IsYouTube(url) && !Includes(url, "cloudinary.com") && !Includes(url, "/embed/")
    ensures Normalise(Normalise(url, protocol), protocol) == Normalise(url, protocol)
  {
    CanonicalStable(YouTubeId(url).value, protocol);
  }

  /** "www.youtube.com" holds no '/', so an occurrence of it and one of "/embed/" never overlap. */
  lemma HostEmbedDisjoint(url: string, i: nat, e: nat)
    requires OccursAt(url, "www.youtube.com", i) && OccursAt(url, "/embed/", e)
    ensures e + 7 <= i || i + 15 <= e
  {
    forall q | i <= q < i + 15
      ensures url[q] != '/'
    {
      assert url[q] == url[i..i + 15][q - i];
      assert url[i..i + 15][q - i] in "www.youtube.com";
    }
    assert url[e] == url[e..e + 7][0] == '/';
    assert url[e + 6] == url[e..e + 7][6] == '/';
  }

  /** Replacing the host keeps an occurrence of "/embed/", shifted when it lies after the host. */
  lemma HostRewriteKeepsEmbed(url: string)
    requires Includes(url, "/embed/") && Includes(url, "www.youtube.com")
    ensures Includes(ReplaceFirst(url, "www.youtube.com", "www.youtube-nocookie.com"), "/embed/")
  {
    var i := IndexOf(url, "www.youtube.com").value;
    var e := IndexOf(url, "/embed/").value;
    var r := ReplaceFirst(url, "www.youtube.com", "www.youtube-nocookie.com");
    HostEmbedDisjoint(url, i, e);
    if e + 7 <= i {
      assert r[e..e + 7] == url[e..e + 7];
      IncludesAt(r, "/embed/", e);
    } else {
      assert r[e + 9..e + 16] == url[e..e + 7];
      IncludesAt(r, "/embed/", e + 9);
    }
  }

  /** Replacing the host puts the nocookie host in, and cannot create a leading 'http:'. */
  lemma HostRewriteShape(url: string)
    requires Includes(url, "www.youtube.com") && !StartsWith(url, "http:")
    ensures var r := ReplaceFirst(url, "www.youtube.com", "www.youtube-nocookie.com");
      Includes(r, "youtube-nocookie.com") && !StartsWith(r, "http:")
  {
    var i := IndexOf(url, "www.youtube.com").value;
    var r := ReplaceFirst(url, "www.youtube.com", "www.youtube-nocookie.com");
    IncludesMiddleSlice(url[..i], "www.youtube-nocookie.com", url[i + 15..]);
    HostRewriteHost(r, i);
    HostRewriteScheme(url, r, i);
  }

  lemma HostRewriteHost(r: string, i: nat)
    requires i + 24 <= |r| && r[i..i + 24] == "www.youtube-nocookie.com"
    ensures Includes(r, "youtube-nocookie.com")
  {
    assert r[i + 4..i + 24] == r[i..i + 24][4..24];
    assert "www.youtube-nocookie.com"[4..24] == "youtube-nocookie.com";
    IncludesAt(r, "youtube-nocookie.com", i + 4);
  }

  lemma HostRewriteScheme(url: string, r: string, i: nat)
    requires i <= |url| && i + 24 <= |r| && r[..i] == url[..i] && r[i..i + 24] == "www.youtube-nocookie.com"
    requires !StartsWith(url, "http:")
    ensures !StartsWith(r, "http:")
  {
    if i < 5 {
      assert r[i] == r[i..i + 24][0] == 'w';
      assert r[..5][i] != "http:"[i];
    } else {
      assert r[..5] == r[..i][..5] == url[..i][..5] == url[..5];
    }
  }

  /**
   * An https (or scheme-less) embed link on the plain YouTube host is
   * rewritten once: the rewritten link keeps '/embed/', gains the nocookie
   * host and still does not start with 'http:', so a second pass leaves it.
   */
  lemma EmbedRewriteIdempotent(url: string, protocol: string -> Option<string>)
    requires IsYouTube(url) && !Includes(url, "cloudinary.com")
    requires Includes(url, "/embed/") && !Includes(url, "youtube-nocookie.com")
    requires !StartsWith(url, "http:")
    ensures Normalise(Normalise(url, protocol), protocol) == Normalise(url, protocol)
  {
    var r := ReplaceFirst(url, "www.youtube.com", "www.youtube-nocookie.com");
    assert Normalise(url, protocol) == r;
    if Includes(url, "www.youtube.com") {
      HostRewriteKeepsEmbed(url);
      HostRewriteShape(url);
      NocookieEmbedStable(r, protocol);
    }
  }

  /**
   * The hook is idempotent on every url the validator accepts, except an
   * 'http:' embed link on the plain YouTube host, whose second pass would
   * depend on the pattern still accepting the rewritten link.
   */
  lemma NormaliseIdempotent(url: string, protocol: string -> Option<string>)
    requires ValidUrl(url, protocol)
    requires !(IsYouTube(url) && Includes(url, "/embed/") && !Includes(url, "youtube-nocookie.com") && StartsWith(url, "http:"))
    ensures Normalise(Normalise(url, protocol), protocol) == Normalise(url, protocol)
  {
    if Includes(url, "cloudinary.com") {
      CloudinaryKept(url, protocol);
    } else if !IsYouTube(url) {
      UpgradeUnreachable(url, protocol);
    } else if !Includes(url, "/embed/") {
      NormaliseIdempotentYouTube(url, protocol);
    } else if Includes(url, "youtube-nocookie.com") {
      NocookieEmbedKept(url, protocol);
    } else {
      EmbedRewriteIdempotent(url, protocol);
    }
  }

  /** A YouTube embed link that already uses the nocookie host is left alone. */
  lemma NocookieEmbedKept(url: string, protocol: string -> Option<string>)
    requires IsYouTube(url) && Includes(url, "/embed/") && Includes(url, "youtube-nocookie.com")
    ensures Normalise(url, protocol) == url
  {
  }

  /** An embed link on some other host (no "www.youtube.com" to replace) comes through the hook unchanged. */
  lemma EmbedOtherHostKept(url: string, protocol: string -> Option<string>)
    requires IsYouTube(url) && !Includes(url, "cloudinary.com") && Includes(url, "/embed/")
    requires !Includes(url, "www.youtube.com")
    ensures Normalise(url, protocol) == url
  {
  }

  datatype VideoComment =VideoComment(user: UserId, content: string)

  datatype Video = Video(
    title: string, description: string, url: string, sport: string, category: string,
    author: UserId, views: int, likes: seq<UserId>, comments: seq<VideoComment>)

  /** The schema's checks on a new video, whose title has already been trimmed. */
  predicate ValidVideo(v: Video, protocol: string -> Option<string>)
  {
    && v.title != "" && v.description != ""
    && ValidUrl(v.url, protocol)
    && v.sport in Sports && v.category in Categories
  }

  /** The validation error's message: one line per failing path, in the schema's order, joined by ', '. */
  function ValidationMessage(v: Video, protocol: string -> Option<string>): string
  {
    var failures :=
      (if v.title == "" then ["Path `title` is required."] else [])
      + (if v.description == "" then ["Path `description` is required."] else [])
      + (if !ValidUrl(v.url, protocol) then [v.url + " is not a valid video URL"] else [])
      + (if v.sport !in Sports then ["`" + v.sport + "` is not a valid enum value for path `sport`."] else [])
      + (if v.category !in Categories then ["`" + v.category + "` is not a valid enum value for path `category`."] else []);
    Join(failures)
  }

  function Join(lines: seq<string>): string
  {
    if |lines| == 0 then "" else if |lines| == 1 then lines[0] else lines[0] + ", " + Join(lines[1..])
  }

  /** An error thrown inside a handler: its constructor name and message. */
  datatype Error = Error(name: string, message: string)

  datatype Created = Created(video: Video) | Thrown(error: Error)

  const MissingFields: string := "Please provide all required fields"
  const MissingSource: string := "Please provide either a video " + "URL" + " or upload a video file"
  const VideoNotFound: string := "Video " + "not found"
  const NotAuthorized: string := "Not authorized" + " to delete this video"

  /**
   * createTrainingVideo up to its catch block: required fields, then the
   * uploaded file's URL (which wins) or the submitted url, then schema
   * validation of the document with its title trimmed, then the pre-save
   * normalisation.
   */
  function CreateVideo(title: string, description: string, url: string, sport: string, category: string,
                       uploadedUrl: Option<string>, caller: UserId, protocol: string -> Option<string>): (r: Created)
    ensures r.Created? ==> r.video.author == caller && r.video.views == 0 && r.video.likes == [] && r.video.comments == []
    ensures r.Created? ==> r.video.title == Trim(title) && r.video.title != ""
    ensures title != "" && description != "" && sport != "" && category != "" && (uploadedUrl.Some? || url != "") ==>
      Trim(title) == "" ==> r.Thrown? && r.error.name == "ValidationError"
  {
    if title == "" || description == "" || sport == "" || category == "" then Thrown(Error("Error", MissingFields))
    else if uploadedUrl.None? && url == "" then Thrown(Error("Error", MissingSource))
    else
      var videoUrl := if uploadedUrl.Some? then uploadedUrl.value else url;
      var v := Video(Trim(title), description, videoUrl, sport, category, caller, 0, [], []);
      if !ValidVideo(v, protocol) then Thrown(Error("ValidationError", ValidationMessage(v, protocol)))
      else Created(v.(url := Normalise(videoUrl, protocol)))
  }

  /** createTrainingVideo's catch block: validation errors and messages naming 'URL' are 400, the rest 500. */
  function CreateErrorStatus(e: Error): int
  {
    if e.name == "ValidationError" then 400
    else if Includes(e.message, "URL") then 400
    else 500
  }

  /** A text missing the first character of `t` does not include `t`. */
  lemma MissingInitial(s: string, t: string)
    requires |t| > 0 && t[0] !in s
    ensures !Includes(s, t)
  {
  }

  lemma IncludesMiddle(a: string, b: string, c: string)
    ensures Includes(a + b + c, b)
  {
    assert (a + b + c)[|a|..|a| + |b|] == b;
    IncludesAt(a + b + c, b, |a|);
  }

  /**
   * The error mapping of createTrainingVideo: a missing required field is
   * reported as 500 (its message does not mention 'URL'), a missing video
   * source as 400, and a schema validation failure as 400.
   */
  lemma CreateErrorStatuses()
    ensures CreateErrorStatus(Error("Error", MissingFields)) == 500
    ensures CreateErrorStatus(Error("Error", MissingSource)) == 400
    ensures forall m :: CreateErrorStatus(Error("ValidationError", m)) == 400
  {
    MissingInitial(MissingFields, "URL");
    IncludesMiddle("Please provide either a video ", "URL", " or upload a video file");
  }

  /** deleteTrainingVideo's catch block. */
  function DeleteErrorStatus(message: string): int
  {
    if Includes(message, "not found") then 404
    else if Includes(message, "Not authorized") then 403
    else 500
  }

  lemma VideoNotFoundIncluded()
    ensures Includes(VideoNotFound, "not found")
  {
    IncludesMiddle("Video ", "not found", "");
    assert "Video " + "not found" + "" == VideoNotFound;
  }

  lemma NotAuthorizedIncluded()
    ensures Includes(NotAuthorized, "Not authorized") && !Includes(NotAuthorized, "not found")
  {
    IncludesMiddle("", "Not authorized", " to delete this video");
    assert 'n' !in NotAuthorized;
    MissingInitial(NotAuthorized, "not found");
  }

  /** 'Video not found' becomes 404 and 'Not authorized to delete this video' 403. */
  lemma DeleteErrorStatuses()
    ensures DeleteErrorStatus(VideoNotFound) == 404
    ensures DeleteErrorStatus(NotAuthorized) == 403
  {
    VideoNotFoundIncluded();
    NotAuthorizedIncluded();
  }

  /** The filter getTrainingVideos builds: one condition per query parameter present (non-empty). */
  datatype VideoQuery = VideoQuery(sport: Option<string>, category: Option<string>, search: Option<string>)

  function VideoQueryOf(sport: string, category: string, search: string): (q: VideoQuery)
    ensures q.sport.Some? <==> sport != ""
    ensures q.category.Some? <==> category != ""
    ensures q.search.Some? <==> search != ""
    ensures q.sport.Some? ==> q.sport.value == sport
    ensures q.category.Some? ==> q.category.value == category
    ensures q.search.Some? ==> q.search.value == search
  {
    VideoQuery(if sport != "" then Some(sport) else None,
               if category != "" then Some(category) else None,
               if search != "" then Some(search) else None)
  }

  /**
   * Whether a video satisfies a getTrainingVideos filter; `matches` is the
   * compiled search pattern (case-insensitive), tried on the title and the
   * description. The third alternative of the search, on `tags`, names a
   * path the schema does not have, so no stored video matches it.
   */
  predicate SelectedBy(q: VideoQuery, matches: string -> bool, v: Video)
  {
    && (q.sport.None? || v.sport == q.sport.value)
    && (q.category.None? || v.category == q.category.value)
    && (q.search.None? || matches(v.title) || matches(v.description))
  }

  /** An empty parameter imposes no condition; a given one restricts by equality or by the pattern. */
  lemma VideoQuerySelects(sport: string, category: string, search: string, matches: string -> bool, v: Video)
    ensures SelectedBy(VideoQueryOf(sport, category, search), matches, v) <==>
      && (sport == "" || v.sport == sport)
      && (category == "" || v.category == category)
      && (search == "" || matches(v.title) || matches(v.description))
  {
  }

  type VideoId = nat

  class VideoStore {
    var videos: map<VideoId, Video>
    var nextId: VideoId

    ghost predicate Valid()
      reads this
    {
      forall id :: id in videos ==> id < nextId && NoDuplicates(videos[id].likes)
    }

    constructor ()
      ensures Valid() && videos == map[]
    {
      videos := map[];
      nextId := 0;
    }

    /** createTrainingVideo: 201 with the stored video, or the mapped error status with nothing stored. */
    method CreateTrainingVideo(title: string, description: string, url: string, sport: string, category: string,
                               uploadedUrl: Option<string>, caller: UserId, protocol: string -> Option<string>)
      returns (status: int, id: Option<VideoId>)
      requires Valid()
      modifies this
      ensures Valid()
      ensures var r := CreateVideo(title, description, url, sport, category, uploadedUrl, caller, protocol);
        && (r.Created? ==> status == 201 && id == Some(old(nextId)) && old(nextId) !in old(videos)
                           && videos == old(videos)[old(nextId) := r.video])
        && (r.Thrown? ==> status == CreateErrorStatus(r.error) && id == None && videos == old(videos))
    {
      var r := CreateVideo(title, description, url, sport, category, uploadedUrl, caller, protocol);
      if r.Thrown? {
        return CreateErrorStatus(r.error), None;
      }
      videos := videos[nextId := r.video];
      id := Some(nextId);
      nextId := nextId + 1;
      status := 201;
    }

    /** getTrainingVideo: one more view per successful fetch; a missing video is reported as 500. */
    method GetTrainingVideo(id: VideoId) returns (status: int)
      requires Valid()
      modifies this
      ensures Valid() && nextId == old(nextId)
      ensures id !in old(videos) ==> status == 500 && videos == old(videos)
      ensures id in old(videos) ==>
        status == 200 && videos == old(videos)[id := old(videos)[id].(views := old(videos)[id].views + 1)]
    {
      if id !in videos {
        return 500;
      }
      var video := videos[id];
      videos := videos[id := video.(views := video.views + 1)];
      status := 200;
    }

    /** likeTrainingVideo: toggle the caller's like; a missing video is reported as 500. */
    method LikeTrainingVideo(id: VideoId, caller: UserId) returns (status: int)
      requires Valid()
      modifies this
      ensures Valid() && nextId == old(nextId)
      ensures id !in old(videos) ==> status == 500 && videos == old(videos)
      ensures id in old(videos) ==>
        && status == 200
        && videos == old(videos)[id := old(videos)[id].(likes := Toggle(old(videos)[id].likes, caller))]
        && (caller in videos[id].likes <==> caller !in old(videos)[id].likes)
    {
      if id !in videos {
        return 500;
      }
      var video := videos[id];
      ToggleFlips(video.likes, caller);
      videos := videos[id := video.(likes := Toggle(video.likes, caller))];
      status := 200;
    }

    /** commentOnTrainingVideo: empty content and a missing video are both reported as 500; otherwise one comment is appended. */
    method CommentOnTrainingVideo(id: VideoId, caller: UserId, content: string) returns (status: int)
      requires Valid()
      modifies this
      ensures Valid() && nextId == old(nextId)
      ensures content == "" || id !in old(videos) ==> status == 500 && videos == old(videos)
      ensures content != "" && id in old(videos) ==>
        && status == 200
        && videos == old(videos)[id := old(videos)[id].(comments := old(videos)[id].comments + [VideoComment(caller, content)])]
    {
      if content == "" || id !in videos {
        return 500;
      }
      var video := videos[id];
      videos := videos[id := video.(comments := video.comments + [VideoComment(caller, content)])];
      status := 200;
    }

    /** deleteTrainingVideo: only the author deletes; the catch block maps the two thrown messages to 404 and 403. */
    method DeleteTrainingVideo(id: VideoId, caller: UserId) returns (status: int)
      requires Valid()
      modifies this
      ensures Valid() && nextId == old(nextId)
      ensures id !in old(videos) ==> status == 404 && videos == old(videos)
      ensures id in old(videos) && old(videos)[id].author != caller ==> status == 403 && videos == old(videos)
      ensures id in old(videos) && old(videos)[id].author == caller ==> status == 200 && videos == old(videos) - {id}
    {
      DeleteErrorStatuses();
      if id !in videos {
        return DeleteErrorStatus(VideoNotFound);
      }
      if videos[id].author != caller {
        return DeleteErrorStatus(NotAuthorized);
      }
      videos := videos - {id};
      status := 200;
    }

    /**
     * getTrainingVideos: the videos meeting the conditions present in the
     * query. The search is compiled as a case-insensitive pattern by
     * `compile`; a pattern it rejects (None) is answered 500.
     */
    method GetTrainingVideos(sport: string, category: string, search: string,
                             compile: string -> Option<string -> bool>)
      returns (status: int, result: set<VideoId>)
      ensures search != "" && compile(search).None? ==> status == 500 && result == {}
      ensures search == "" || compile(search).Some? ==>
        && status == 200
        && forall id :: id in result <==>
             && id in videos
             && (sport == "" || videos[id].sport == sport)
             && (category == "" || videos[id].category == category)
             && (search == "" || compile(search).value(videos[id].title) || compile(search).value(videos[id].description))
    {
      var query := VideoQueryOf(sport, category, search);
      var matches := (t: string) => false;
      if query.search.Some? {
        var compiled := compile(query.search.value);
        if compiled.None? {
          return 500, {};
        }
        matches := compiled.value;
      }
      forall id | id in videos {
        VideoQuerySelects(sport, category, search, matches, videos[id]);
      }
      result := set id | id in videos && SelectedBy(query, matches, videos[id]);
      status := 200;
    }
  }
}
